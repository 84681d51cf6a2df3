/** The repository and the upload service as they run: tables updated in place, one transaction per
    method. Each method is proved to perform exactly one step of the store. */
module Repository {
  import opened Collections
  import opened Texts
  import opened Uploads
  import opened Pricing
  import opened ShardStore

  class PostgresRepository {
    var runs: map<RunId, Run>
    var now: int
    var issued: Token

    ghost function State(): Store
      reads this
    {
      Store(runs, now, issued)
    }

    constructor ()
      ensures State() == EMPTY
    {
      runs, now, issued := map[], 0, 0;
    }

    method Elapse(elapsed: nat)
      modifies this`now
      ensures (State(), Elapsed) == Step(old(State()), Advance(elapsed))
    {
      now := now + elapsed;
    }

    method RegisterRun(id: RunId, registration: Registration) returns (reply: Reply)
      modifies this`runs
      ensures (State(), reply) == Step(old(State()), Register(id, registration))
    {
      if registration.expectedShards < 1 || registration.expectedShards > 10_000 { return Refused(Invalid); }
      if id !in runs {
        runs := runs[id := NewRun(registration)];
        return Created(true);
      }
      if runs[id].registration != registration { return Refused(Conflict); }
      runs := runs[id := runs[id].(queue := Enqueued(runs[id].queue, registration))];
      return Created(false);
    }

    method TerminateRun(id: RunId, request: TerminalRequest) returns (reply: Reply)
      modifies this`runs
      ensures (State(), reply) == Step(old(State()), Terminate(id, request))
    {
      if !request.status.Cancelled? && !request.status.HarnessFailed? { return Refused(Invalid); }
      if id !in runs { return Refused(NotFound); }
      var run := runs[id];
      assert runs[id := run] == runs;
      if run.status.Complete? { return Refused(Conflict); }
      if run.status.Cancelled? || run.status.HarnessFailed? {
        if run.terminal != Some(request) { return Refused(Conflict); }
        return Created(false);
      }
      run := run.(status := request.status, terminal := Some(request));
      var queue := map i | i in run.queue :: if run.queue[i].Finished? then run.queue[i] else Withdrawn;
      assert queue == Withdraw(run.queue);
      run := run.(queue := queue);
      runs := runs[id := run];
      return Created(true);
    }

    method ClaimShard(id: RunId, worker: WorkerId) returns (reply: Reply)
      modifies this`runs, this`issued
      ensures (State(), reply) == Step(old(State()), Claim(id, worker))
    {
      if Blank(worker) { return Refused(Invalid); }
      var token := issued;
      issued := issued + 1;
      if id !in runs { return Refused(NotFound); }
      var run := runs[id];
      assert runs[id := run] == runs;
      if !run.registration.Queued() { return Refused(Invalid); }
      if !run.status.Collecting? { return Refused(QueueEmpty); }
      var expires := now + LEASE;
      var mine := LiveOwned(run.queue, worker, now);
      if mine != {} {
        runs := runs[id := run.(queue := Rotated(run.queue, mine, token, expires))];
        return Claimed(Least(mine), token, expires);
      }
      var free := Available(run.queue, now);
      if free == {} { return Refused(QueueEmpty); }
      runs := runs[id := run.(queue := run.queue[Least(free) := Leased(worker, token, expires)])];
      return Claimed(Least(free), token, expires);
    }

    method RenewShardLease(id: RunId, shard: int, token: Token) returns (reply: Reply)
      modifies this`runs
      ensures (State(), reply) == Step(old(State()), Renew(id, shard, token))
    {
      if shard < 0 { return Refused(Invalid); }
      if id !in runs { return Refused(LeaseLost); }
      var run := runs[id];
      assert runs[id := run] == runs;
      if shard !in run.queue || !Live(run.queue[shard], now) || run.queue[shard].token != token {
        return Refused(LeaseLost);
      }
      var row := run.queue[shard].(expires := now + LEASE);
      runs := runs[id := run.(queue := run.queue[shard := row])];
      return Renewed(now + LEASE);
    }

    /** Reserves the shard for this payload, or compares with the reservation already there. */
    method ReserveShard(id: RunId, shard: int, upload: Upload, lease: Option<Token>) returns (reply: Reply)
      modifies this`runs
      ensures (State(), reply) == Step(old(State()), Reserve(id, shard, upload, lease))
    {
      var ok := ValidateShard(id, shard, upload);
      if !ok { return Refused(Invalid); }
      var payload := NormalizeShard(upload);
      if id !in runs { return Refused(NotFound); }
      var run := runs[id];
      assert runs[id := run] == runs;
      if shard >= run.registration.expectedShards { return Refused(Invalid); }
      if run.registration.Queued() && run.status.Collecting? {
        if lease.None? || shard !in run.queue || !Live(run.queue[shard], now) || run.queue[shard].token != lease.value {
          return Refused(LeaseLost);
        }
      }
      if shard !in run.receipts {
        runs := runs[id := run.(receipts := run.receipts[shard := Receipt(payload, false)])];
        return Reserved(false);
      }
      if run.receipts[shard].payload != payload { return Refused(Conflict); }
      return Reserved(run.receipts[shard].complete);
    }

    /** Inserts the cases one by one; a conflicting case abandons the transaction before anything is stored. */
    method InsertAll(rows: seq<CaseRow>, shard: int, pricing: Option<RunPricing>, cases: seq<CaseResult>)
      returns (inserted: Option<seq<CaseRow>>)
      ensures inserted == InsertCases(rows, shard, pricing, cases)
    {
      var table := rows;
      for k := 0 to |cases|
        invariant InsertCases(rows, shard, pricing, cases) == InsertCases(table, shard, pricing, cases[k..])
      {
        assert cases[k..][1..] == cases[k + 1..];
        var row := NewRow(shard, pricing, cases[k]);
        var taken := exists i | 0 <= i < |table| :: RowKey(table[i]) == RowKey(row);
        if !taken {
          table := table + [row];
        } else if !(exists i | 0 <= i < |table| :: table[i].item == row.item) {
          return None;
        }
      }
      return Some(table);
    }

    method FinalizeShard(id: RunId, shard: int, upload: Upload, lease: Option<Token>) returns (reply: Reply)
      modifies this`runs
      ensures (State(), reply) == Step(old(State()), Finalize(id, shard, upload, lease))
      ensures !reply.Refused? ==> id in runs
    {
      var payload := NormalizeShard(upload);
      if id !in runs { return Refused(NotFound); }
      var run := runs[id];
      assert runs[id := run] == runs;
      if run.registration.Queued() && run.status.Collecting? {
        if lease.None? || shard !in run.queue || !Live(run.queue[shard], now) || run.queue[shard].token != lease.value {
          return Refused(LeaseLost);
        }
      }
      if shard !in run.receipts { return Refused(NotFound); }
      if run.receipts[shard].payload != payload { return Refused(Conflict); }
      if run.receipts[shard].complete { return Created(false); }
      var inserted := InsertAll(run.rows, shard, run.registration.pricing, payload.cases);
      if inserted.None? { return Refused(Conflict); }
      run := run.(rows := inserted.value, receipts := run.receipts[shard := Receipt(payload, true)]);
      if run.registration.Queued() && shard in run.queue {
        run := run.(queue := run.queue[shard := Finished]);
      }
      run := run.(summary := Some(AggregateOf(run.rows)));
      var completed := |CompleteReceipts(run.receipts)|;
      if !run.status.Cancelled? && !run.status.HarnessFailed? {
        if completed == run.registration.expectedShards {
          run := run.(status := Complete, completedAt := if run.completedAt.Some? then run.completedAt else Some(now));
        } else {
          run := run.(status := Collecting);
        }
      }
      runs := runs[id := run];
      return Created(true);
    }

    /** One upload without interference: reserve, write the raw document, then finalize unless the shard is already
        complete. `stored` is whether the object store took the document. */
    method UploadShardWithLease(id: RunId, shard: int, upload: Upload, lease: Option<Token>, stored: bool)
      returns (reply: Reply, costs: Option<Costs>)
      modifies this`runs
      ensures var (reserved, first) := Step(old(State()), Reserve(id, shard, upload, lease));
              (State(), reply) ==
              if first == Reserved(true) then (reserved, Created(false))
              else if first != Reserved(false) then (reserved, first)
              else if !stored then (reserved, Refused(Unavailable))
              else Step(reserved, Finalize(id, shard, upload, lease))
      ensures reply == Created(true) ==>
                id in runs && costs == ShardCosts(runs[id].registration.pricing, Normalized(upload).summary)
      ensures reply != Created(true) ==> costs == None
    {
      reply := ReserveShard(id, shard, upload, lease);
      if reply.Refused? { return reply, None; }
      if reply.alreadyComplete { return Created(false), None; }
      if !stored { return Refused(Unavailable), None; }
      reply := FinalizeShard(id, shard, upload, lease);
      if reply != Created(true) { return reply, None; }
      var payload := NormalizeShard(upload);
      costs := ShardCosts(runs[id].registration.pricing, payload.summary);
    }
  }
}
