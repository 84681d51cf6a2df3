/** What each transaction does to its run, in terms of the rows alone: when it takes effect, what it changes, and
    that it changes nothing else. */
module ShardEffects {
  import opened Collections
  import opened Texts
  import opened Uploads
  import opened Pricing
  import opened ShardStore
  import opened ShardInvariant
  import opened ShardTheorems

  /** The store with one run replaced. */
  function WithRun(s: Store, id: RunId, run: Run): Store { s.(runs := s.runs[id := run]) }

  // ---- Requests that change nothing ----

  /** A malformed request is refused before anything is looked up. */
  lemma MalformedRefused(s: Store, e: Event)
    requires e.Register? ==> e.registration.expectedShards < 1 || e.registration.expectedShards > 10_000
    requires e.Terminate? ==> e.request.status == Collecting || e.request.status == Complete
    requires e.Claim? ==> Blank(e.worker)
    requires e.Renew? ==> e.shard < 0
    requires e.Reserve? ==> !Accepted(e.id, e.shard, e.upload)
    requires !e.Advance? && !e.Finalize?
    ensures Step(s, e) == (s, Refused(Invalid))
  {
  }

  /** A well-formed request for a run that is not registered finds nothing; a renewal has lost its lease. */
  lemma UnknownRun(s: Store, e: Event)
    requires !e.Advance? && !e.Register? && WellFormed(e) && e.id !in s.runs
    ensures Step(s, e).0.runs == s.runs
    ensures Step(s, e).1 == Refused(if e.Renew? then LeaseLost else NotFound)
  {
  }

  // ---- Register ----

  /** A well-formed registration of a new run stores it as sent, collecting, without uploads, and with one queued row
      for each of its shards exactly if it is queued. */
  lemma RegisterEffect(s: Store, id: RunId, registration: Registration)
    requires 1 <= registration.expectedShards <= 10_000
    ensures
      var (after, reply) := Step(s, Register(id, registration));
      && (reply == Created(true) <==> id !in s.runs)
      && (id !in s.runs ==>
            && id in after.runs && after == WithRun(s, id, after.runs[id])
            && var run := after.runs[id];
               && run.registration == registration && run.status == Collecting && run.terminal == None
               && run.receipts == map[] && run.rows == [] && run.summary == None && run.completedAt == None
               && (forall i :: i in run.queue <==>
                     registration.scheduling == Keda && 0 <= i < registration.expectedShards)
               && (forall i | i in run.queue :: run.queue[i] == QueueRow.Queued))
  {
  }

  /** The registration that was sent is the one later registrations are compared with. */
  lemma RegisteredIsCompared(s: Store, events: seq<Event>, id: RunId, sent: Registration, again: Registration)
    requires Valid(s) && id !in s.runs
    requires 1 <= sent.expectedShards <= 10_000 && 1 <= again.expectedShards <= 10_000
    ensures
      var later := After(Step(s, Register(id, sent)).0, events);
      Step(later, Register(id, again)) == (later, if again == sent then Created(false) else Refused(Conflict))
  {
    var stored := Step(s, Register(id, sent)).0;
    RegisterEffect(s, id, sent);
    StepKeeps(s, Register(id, sent));
    RegisterRepeats(stored, events, id, again);
  }

  // ---- Terminate ----

  /** A terminal request takes effect exactly on a collecting run: status and reason are stored, every queue row that
      is not finished is withdrawn, and nothing else changes. */
  lemma TerminateEffect(s: Store, id: RunId, request: TerminalRequest)
    requires id in s.runs && (request.status == Cancelled || request.status == HarnessFailed)
    ensures
      var run := s.runs[id];
      var (after, reply) := Step(s, Terminate(id, request));
      && (reply == Created(true) <==> run.status == Collecting)
      && (reply == Created(true) ==>
            && id in after.runs
            && var queue := after.runs[id].queue;
               && after == WithRun(s, id, run.(status := request.status, terminal := Some(request), queue := queue))
               && queue.Keys == run.queue.Keys
               && forall i | i in queue ::
                    queue[i] == if run.queue[i] == Finished then Finished else Withdrawn)
      && (run.status != Collecting ==>
            && after == s
            && reply == if run.status != Complete && run.terminal == Some(request) then Created(false)
                        else Refused(Conflict))
  {
    SameRun(s.runs, id);
  }

  // ---- Claim ----

  /** The shard a claim gets: the one the worker holds, or else the lowest that nobody holds. */
  predicate Obtains(queue: map<int, QueueRow>, worker: WorkerId, now: int, shard: int) {
    var mine := (i: int) => i in queue && queue[i].Leased? && queue[i].owner == worker && queue[i].expires > now;
    var free := (i: int) =>
      i in queue && (queue[i] == QueueRow.Queued || (queue[i].Leased? && queue[i].expires <= now));
    mine(shard) || (free(shard) && forall i | i in queue :: !mine(i) && (free(i) ==> shard <= i))
  }

  lemma ClaimOnRun(run: Run, worker: WorkerId, now: int, issued: Token)
    requires LeasesValid(run.queue, now, issued)
    ensures
      var (after, reply) := ClaimShard(run, worker, issued, now);
      && (reply.Claimed? <==>
            && run.registration.scheduling == Keda && run.status == Collecting
            && exists i :: i in run.queue && Obtains(run.queue, worker, now, i))
      && (reply.Claimed? ==>
            && reply == Claimed(reply.shard, issued, now + LEASE)
            && reply.shard in run.queue && Obtains(run.queue, worker, now, reply.shard)
            && after == run.(queue := run.queue[reply.shard := Leased(worker, issued, now + LEASE)]))
      && (!reply.Claimed? ==>
            after == run && reply == Refused(if run.registration.scheduling == Keda then QueueEmpty else Invalid))
  {
    var (after, reply) := ClaimShard(run, worker, issued, now);
    if run.registration.Queued() && run.status.Collecting? {
      ClaimFollowsRules(run, worker, now, issued);
      if reply.Claimed? { ClaimedIsObtained(run, worker, now, issued); }
      if i :| i in run.queue && Obtains(run.queue, worker, now, i) {
        assert i in LiveOwned(run.queue, worker, now) || i in Available(run.queue, now);
      }
    }
  }

  lemma ClaimedIsObtained(run: Run, worker: WorkerId, now: int, issued: Token)
    requires LeasesValid(run.queue, now, issued) && run.registration.Queued() && run.status.Collecting?
    requires ClaimShard(run, worker, issued, now).1.Claimed?
    ensures
      var (after, reply) := ClaimShard(run, worker, issued, now);
      && reply == Claimed(reply.shard, issued, now + LEASE)
      && reply.shard in run.queue && Obtains(run.queue, worker, now, reply.shard)
      && after == run.(queue := run.queue[reply.shard := Leased(worker, issued, now + LEASE)])
  {
    ClaimFollowsRules(run, worker, now, issued);
    var mine := LiveOwned(run.queue, worker, now);
    if mine != {} {
      var i := Pick(mine);
      assert ClaimShard(run, worker, issued, now).1.shard == i;
    } else {
      assert forall i | i in run.queue :: i !in mine;
      assert forall i | i in run.queue && Claimable(run.queue[i], now) :: i in Available(run.queue, now);
    }
  }

  /** A claim succeeds exactly on a collecting queued run with a shard to obtain. It then leases that shard to the
      worker under a fresh token for one duration, and changes nothing else; otherwise it changes no run. */
  lemma ClaimEffect(s: Store, id: RunId, worker: WorkerId)
    requires id in s.runs && LeasesValid(s.runs[id].queue, s.now, s.issued) && !Blank(worker)
    ensures
      var run := s.runs[id];
      var (after, reply) := Step(s, Claim(id, worker));
      && (reply.Claimed? <==>
            && run.registration.scheduling == Keda && run.status == Collecting
            && exists i :: i in run.queue && Obtains(run.queue, worker, s.now, i))
      && (reply.Claimed? ==>
            && reply == Claimed(reply.shard, s.issued, s.now + 45_000_000)
            && reply.shard in run.queue && Obtains(run.queue, worker, s.now, reply.shard)
            && var queue := run.queue[reply.shard := Leased(worker, s.issued, s.now + 45_000_000)];
               after == WithRun(s, id, run.(queue := queue)).(issued := s.issued + 1))
      && (!reply.Claimed? ==>
            && after == s.(issued := s.issued + 1)
            && reply == Refused(if run.registration.scheduling == Keda then QueueEmpty else Invalid))
  {
    StepIs(s, Claim(id, worker));
    ClaimOnRun(s.runs[id], worker, s.now, s.issued);
    SameRun(s.runs, id);
  }

  // ---- Renew ----

  /** A renewal takes effect exactly when the row is leased under the token and has not run out; then its lease ends
      one duration from now, and nothing else changes. Every other renewal is answered "lease lost". */
  lemma RenewExactlyWhen(s: Store, id: RunId, shard: int, token: Token)
    requires id in s.runs && shard >= 0
    ensures
      var run := s.runs[id];
      var (after, reply) := Step(s, Renew(id, shard, token));
      var held :=
        && shard in run.queue && run.queue[shard].Leased?
        && run.queue[shard].token == token && run.queue[shard].expires > s.now;
      && (reply == Renewed(s.now + 45_000_000) <==> held)
      && (!held ==> (after, reply) == (s, Refused(LeaseLost)))
      && (held ==>
            after == WithRun(s, id, run.(
              queue := run.queue[shard := Leased(run.queue[shard].owner, token, s.now + 45_000_000)])))
  {
    SameRun(s.runs, id);
  }

  // ---- Reserve and finalize ----

  /** While a queued run collects, an upload needs a live lease of its shard. */
  predicate UnderLease(run: Run, shard: int, lease: Option<Token>, now: int) {
    run.registration.scheduling == Keda && run.status == Collecting ==>
      && lease.Some? && shard in run.queue && run.queue[shard].Leased?
      && run.queue[shard].token == lease.value && run.queue[shard].expires > now
  }

  lemma FenceIsLease(run: Run, shard: int, lease: Option<Token>, now: int)
    ensures Fenced(run, shard, lease, now) <==> !UnderLease(run, shard, lease, now)
  {
  }

  /** A reservation in range and under its lease stores the document of a shard that has none, changes nothing for one
      that has the same, and conflicts with another. */
  lemma ReserveEffect(s: Store, id: RunId, shard: int, upload: Upload, lease: Option<Token>)
    requires id in s.runs && Accepted(id, shard, upload)
    ensures
      var run, doc := s.runs[id], Normalized(upload);
      var (after, reply) := Step(s, Reserve(id, shard, upload, lease));
      if shard >= run.registration.expectedShards then (after, reply) == (s, Refused(Invalid))
      else if !UnderLease(run, shard, lease, s.now) then (after, reply) == (s, Refused(LeaseLost))
      else if shard !in run.receipts then
        && reply == Reserved(false)
        && after == WithRun(s, id, run.(receipts := run.receipts[shard := Receipt(doc, false)]))
      else
        && after == s
        && reply == if run.receipts[shard].payload != doc then Refused(Conflict)
                    else Reserved(run.receipts[shard].complete)
  {
    StepIs(s, Reserve(id, shard, upload, lease));
    FenceIsLease(s.runs[id], shard, lease, s.now);
    SameRun(s.runs, id);
  }

  /** No stored row of the same case says something else. */
  predicate Unopposed(rows: seq<CaseRow>, cases: seq<CaseResult>) {
    forall i, k | 0 <= i < |rows| && 0 <= k < |cases| ::
      rows[i].item.caseId == cases[k].caseId && rows[i].item.iteration == cases[k].iteration ==>
        rows[i].item == cases[k]
  }

  lemma UnopposedIsCompatible(rows: seq<CaseRow>, cases: seq<CaseResult>)
    ensures Unopposed(rows, cases) <==> forall k | 0 <= k < |cases| :: Compatible(rows, cases[k])
  {
    if Unopposed(rows, cases) {
      forall k | 0 <= k < |cases| ensures Compatible(rows, cases[k]) {}
    }
    if forall k | 0 <= k < |cases| :: Compatible(rows, cases[k]) {
      forall i, k | 0 <= i < |rows| && 0 <= k < |cases|
        ensures rows[i].item.caseId == cases[k].caseId && rows[i].item.iteration == cases[k].iteration ==>
                  rows[i].item == cases[k]
      {
        assert Compatible(rows, cases[k]);
        assert RowKey(rows[i]) == KeyOf(cases[k]) ==> rows[i].item == cases[k];
      }
    }
  }

  /** Every shard but this one is complete. */
  predicate LastOne(run: Run, shard: int) {
    forall i | 0 <= i < run.registration.expectedShards && i != shard :: i in run.receipts && run.receipts[i].complete
  }

  /** What completing a shard makes of its run: the receipt complete, its queue row finished, its new cases stored after
      the others, the aggregate over all stored cases; and an unterminated run complete exactly when the last shard is
      in. */
  predicate Completed(run: Run, shard: int, now: int, after: Run) {
    && shard in run.receipts
    && after.registration == run.registration && after.terminal == run.terminal
    && after.receipts == run.receipts[shard := Receipt(run.receipts[shard].payload, true)]
    && after.rows == run.rows + NewRows(shard, run.registration.pricing,
                                        Fresh(run.rows, run.receipts[shard].payload.cases))
    && after.summary == Some(AggregateOf(after.rows))
    && after.queue == (if run.registration.scheduling == Keda then run.queue[shard := Finished] else run.queue)
    && after.status == (if run.terminal.Some? then run.status else if LastOne(run, shard) then Complete else Collecting)
    && after.completedAt == (if run.terminal.None? && LastOne(run, shard) then Some(now) else None)
  }

  lemma LastOneCompletes(run: Run, shard: int)
    requires ReceiptsValid(run.registration, run.receipts) && shard in run.receipts
    ensures
      var more := run.receipts[shard := run.receipts[shard].(complete := true)];
      |CompleteReceipts(more)| == run.registration.expectedShards <==> LastOne(run, shard)
  {
    var more := run.receipts[shard := run.receipts[shard].(complete := true)];
    CountDecides(run.registration, more);
    AllShardsSet(run.registration, more);
    AllButThis(run, shard, more);
  }

  lemma AllButThis(run: Run, shard: int, more: map<int, Receipt>)
    requires shard in run.receipts && more == run.receipts[shard := run.receipts[shard].(complete := true)]
    ensures LastOne(run, shard) <==>
            forall i | 0 <= i < run.registration.expectedShards :: i in more && more[i].complete
  {
    if LastOne(run, shard) {
      forall i | 0 <= i < run.registration.expectedShards ensures i in more && more[i].complete {
        assert i == shard || (i in run.receipts && run.receipts[i].complete);
      }
    }
    if forall i | 0 <= i < run.registration.expectedShards :: i in more && more[i].complete {
      forall i | 0 <= i < run.registration.expectedShards && i != shard
        ensures i in run.receipts && run.receipts[i].complete
      {
        assert i in more && more[i].complete;
      }
    }
  }

  lemma CompleteShardEffect(run: Run, shard: int, now: int, issued: Token, rows: seq<CaseRow>)
    requires RunValid(run, now, issued) && shard in run.receipts && !run.receipts[shard].complete
    requires InsertCases(run.rows, shard, run.registration.pricing, run.receipts[shard].payload.cases) == Some(rows)
    ensures Completed(run, shard, now, CompleteShard(run, shard, rows, now))
  {
    LastOneCompletes(run, shard);
    InsertCasesInOrder(run.rows, shard, run.registration.pricing, run.receipts[shard].payload.cases);
    assert run.registration.Queued() ==> shard in run.queue;
    assert run.completedAt == None;
  }

  lemma FinalizeOnRun(run: Run, shard: int, doc: Upload, lease: Option<Token>, now: int, issued: Token)
    requires RunValid(run, now, issued)
    ensures
      var (after, reply) := FinalizeShard(run, shard, doc, lease, now);
      if !UnderLease(run, shard, lease, now) then (after, reply) == (run, Refused(LeaseLost))
      else if shard !in run.receipts then (after, reply) == (run, Refused(NotFound))
      else if run.receipts[shard].payload != doc then (after, reply) == (run, Refused(Conflict))
      else if run.receipts[shard].complete then (after, reply) == (run, Created(false))
      else if !Unopposed(run.rows, doc.cases) then (after, reply) == (run, Refused(Conflict))
      else reply == Created(true) && Completed(run, shard, now, after)
  {
    FenceIsLease(run, shard, lease, now);
    if shard in run.receipts && run.receipts[shard] == Receipt(doc, false) {
      UnopposedIsCompatible(run.rows, doc.cases);
      InsertCasesSpec(run.rows, shard, run.registration.pricing, doc.cases);
      var rows := InsertCases(run.rows, shard, run.registration.pricing, doc.cases);
      if rows.Some? { CompleteShardEffect(run, shard, now, issued, rows.value); }
    }
  }

  /** A finalize under its lease completes the shard exactly when it presents the reserved document of an incomplete
      shard and no stored case opposes it; every other finalize changes nothing. */
  lemma FinalizeEffect(s: Store, id: RunId, shard: int, upload: Upload, lease: Option<Token>)
    requires id in s.runs && RunValid(s.runs[id], s.now, s.issued)
    ensures
      var run, doc := s.runs[id], Normalized(upload);
      var (after, reply) := Step(s, Finalize(id, shard, upload, lease));
      if !UnderLease(run, shard, lease, s.now) then (after, reply) == (s, Refused(LeaseLost))
      else if shard !in run.receipts then (after, reply) == (s, Refused(NotFound))
      else if run.receipts[shard].payload != doc then (after, reply) == (s, Refused(Conflict))
      else if run.receipts[shard].complete then (after, reply) == (s, Created(false))
      else if !Unopposed(run.rows, doc.cases) then (after, reply) == (s, Refused(Conflict))
      else
        && reply == Created(true) && id in after.runs
        && after == WithRun(s, id, after.runs[id]) && Completed(run, shard, s.now, after.runs[id])
  {
    StepIs(s, Finalize(id, shard, upload, lease));
    FinalizeOnRun(s.runs[id], shard, Normalized(upload), lease, s.now, s.issued);
    SameRun(s.runs, id);
  }

  // ---- Queue status ----

  /** The counts of the status query, each by its rows. */
  lemma QueueStatusMeans(run: Run, now: int)
    ensures
      var q := QueueStatusOf(run, now);
      && q.status == run.status && q.expected == run.registration.expectedShards
      && q.pending ==
         |set i | i in run.queue &&
                  (run.queue[i] == QueueRow.Queued || (run.queue[i].Leased? && run.queue[i].expires <= now))|
      && q.leased == |set i | i in run.queue && run.queue[i].Leased? && run.queue[i].expires > now|
      && q.completed == |set i | i in run.queue && run.queue[i] == Finished|
      && q.available == if run.status == Collecting then q.pending else 0
  {
    var pending := set i | i in run.queue &&
                           (run.queue[i] == QueueRow.Queued || (run.queue[i].Leased? && run.queue[i].expires <= now));
    forall i ensures i in Available(run.queue, now) <==> i in pending {}
    assert Available(run.queue, now) == pending;
    var leased := set i | i in run.queue && run.queue[i].Leased? && run.queue[i].expires > now;
    assert (set i | i in run.queue && Live(run.queue[i], now)) == leased;
    var completed := set i | i in run.queue && run.queue[i] == Finished;
    assert (set i | i in run.queue && run.queue[i].Finished?) == completed;
  }

  // ---- What an upload costs ----

  /** An upload reports costs exactly for a priced run and complete usage: each kind of tokens at its own price, and
      their sum. */
  lemma ShardCostsMean(pricing: Option<RunPricing>, s: Summary)
    requires s.inputTokens >= 0 && s.outputTokens >= 0
    ensures ShardCosts(pricing, s).Some? <==> pricing.Some? && s.usageComplete != Some(false)
    ensures
      ShardCosts(pricing, s).Some? ==>
        var costs := ShardCosts(pricing, s).value;
        && costs.input == TokenCost(HalfAwayFromZero, s.inputTokens, pricing.value.inputPrice)
        && costs.output == TokenCost(HalfAwayFromZero, s.outputTokens, pricing.value.outputPrice)
        && costs.total == costs.input + costs.output
  {
  }
}
