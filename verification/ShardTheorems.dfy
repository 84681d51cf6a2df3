/** What the invariant gives over whole runs: for every store a sequence of steps can reach, and every
    continuation of it, in any interleaving of clients. */
module ShardTheorems {
  import opened Collections
  import opened Uploads
  import opened Pricing
  import opened ShardStore
  import opened ShardInvariant

  /** A transaction that passes its checks acts on its run alone. */
  lemma StepIs(s: Store, e: Event)
    requires !e.Advance? && !e.Register? && WellFormed(e) && e.id in s.runs
    ensures
      var (run, reply) := OnRun(s.runs[e.id], e, s.now, s.issued);
      var issued := if e.Claim? then s.issued + 1 else s.issued;
      Step(s, e) == (s.(runs := s.runs[e.id := run], issued := issued), reply)
  {
  }

  // ---- Status ----

  predicate Settled(run: Run) { !run.status.Collecting? }

  predicate SameOutcome(a: Run, b: Run) {
    a.status == b.status && a.terminal == b.terminal && a.completedAt == b.completedAt
  }

  lemma SettledStep(run: Run, e: Event, now: int, issued: Token)
    requires !e.Advance? && !e.Register? && RunValid(run, now, issued) && Settled(run)
    ensures SameOutcome(OnRun(run, e, now, issued).0, run)
  {
    if e.Finalize? && run.status.Complete? && e.shard in run.receipts {
      assert e.shard in CompleteReceipts(run.receipts);
    }
  }

  /** Complete, cancelled and harness_failed absorb: although the aggregate refresh can write
      `collecting`, no later step of any client changes a settled outcome. */
  lemma {:induction false} TerminalStatusAbsorbs(s: Store, events: seq<Event>, id: RunId)
    requires Valid(s) && id in s.runs && Settled(s.runs[id])
    ensures id in After(s, events).runs && SameOutcome(After(s, events).runs[id], s.runs[id])
    decreases |events|
  {
    if events != [] {
      var e := events[0];
      StepEffect(s, e, id);
      StepKeeps(s, e);
      if Targets(e, id) { SettledStep(s.runs[id], e, s.now, s.issued); }
      TerminalStatusAbsorbs(Step(s, e).0, events[1..], id);
    }
  }

  predicate AllShardsIn(run: Run) {
    forall i | 0 <= i < run.registration.expectedShards :: i in run.receipts && run.receipts[i].complete
  }

  /** A run nobody terminated is complete exactly when every shard index has a complete receipt. */
  lemma CompletionIsExact(events: seq<Event>, id: RunId)
    requires id in After(EMPTY, events).runs && After(EMPTY, events).runs[id].terminal.None?
    ensures var run := After(EMPTY, events).runs[id];
            run.status.Complete? <==> AllShardsIn(run)
  {
    ReachableValid(events);
    var run := After(EMPTY, events).runs[id];
    AllShardsSet(run.registration, run.receipts);
  }

  lemma AllShardsSet(registration: Registration, receipts: map<int, Receipt>)
    requires ReceiptsValid(registration, receipts)
    ensures (forall i | 0 <= i < registration.expectedShards :: i in receipts && receipts[i].complete) <==>
            CompleteReceipts(receipts) == Shards(registration)
  {
    if CompleteReceipts(receipts) == Shards(registration) {
      forall i | 0 <= i < registration.expectedShards ensures i in receipts && receipts[i].complete {
        assert i in CompleteReceipts(receipts);
      }
    } else if forall i | 0 <= i < registration.expectedShards :: i in receipts && receipts[i].complete {
      forall i ensures i in CompleteReceipts(receipts) <==> i in Shards(registration) {}
    }
  }

  // ---- Lease fencing ----

  predicate Holds(s: Store, id: RunId, shard: int, token: Token) {
    id in s.runs && HoldsLease(s.runs[id].queue, shard, token, s.now)
  }

  /** An issued token that no longer holds its lease: it expired, was replaced, or was given up. */
  predicate Dead(s: Store, id: RunId, shard: int, token: Token) {
    token < s.issued && !Holds(s, id, shard, token)
  }

  lemma NoRevival(run: Run, e: Event, now: int, issued: Token, shard: int, token: Token)
    requires !e.Advance? && !e.Register? && token < issued && !HoldsLease(run.queue, shard, token, now)
    ensures !HoldsLease(OnRun(run, e, now, issued).0.queue, shard, token, now)
  {
  }

  lemma DeadStep(s: Store, e: Event, id: RunId, shard: int, token: Token)
    requires Valid(s) && Dead(s, id, shard, token)
    ensures Dead(Step(s, e).0, id, shard, token)
  {
    StepMonotone(s, e);
    if id in s.runs {
      StepEffect(s, e, id);
      if Targets(e, id) { NoRevival(s.runs[id], e, s.now, s.issued, shard, token); }
    } else if id in Step(s, e).0.runs {
      NothingLeasedAtRegistration(s, e, id);
    }
  }

  lemma NothingLeasedAtRegistration(s: Store, e: Event, id: RunId)
    requires id !in s.runs && id in Step(s, e).0.runs
    ensures forall i | i in Step(s, e).0.runs[id].queue :: Step(s, e).0.runs[id].queue[i].Queued?
  {
  }

  /** Once dead, a token is dead in every later state. */
  lemma {:induction false} DeadForever(s: Store, events: seq<Event>, id: RunId, shard: int, token: Token)
    requires Valid(s) && Dead(s, id, shard, token)
    ensures Dead(After(s, events), id, shard, token)
    decreases |events|
  {
    if events != [] {
      DeadStep(s, events[0], id, shard, token);
      StepKeeps(s, events[0]);
      DeadForever(Step(s, events[0]).0, events[1..], id, shard, token);
    }
  }

  /** A token that died before, during or after its reservation cannot renew, reserve or finalize while
      a queued run is collecting, whatever happened in between, and the refusal changes nothing. */
  lemma DeadTokenIsFencedOff(s: Store, events: seq<Event>, id: RunId, shard: int, token: Token, upload: Upload)
    requires Valid(s) && Dead(s, id, shard, token)
    ensures var later := After(s, events);
            && Step(later, Renew(id, shard, token)).1.Refused?
            && Step(later, Renew(id, shard, token)).0.runs == later.runs
            && (id in later.runs && later.runs[id].registration.Queued() && later.runs[id].status.Collecting? ==>
                  && Step(later, Finalize(id, shard, upload, Some(token))) == (later, Refused(LeaseLost))
                  && Step(later, Reserve(id, shard, upload, Some(token))).1.Refused?
                  && Step(later, Reserve(id, shard, upload, Some(token))).0.runs == later.runs)
  {
    DeadForever(s, events, id, shard, token);
    var later := After(s, events);
    DeadRenewRefused(later, id, shard, token);
    if id in later.runs && later.runs[id].registration.Queued() && later.runs[id].status.Collecting? {
      DeadUploadRefused(later, id, shard, token, upload);
    }
  }

  lemma DeadRenewRefused(s: Store, id: RunId, shard: int, token: Token)
    requires Dead(s, id, shard, token)
    ensures Step(s, Renew(id, shard, token)).1.Refused? && Step(s, Renew(id, shard, token)).0.runs == s.runs
  {
    if id in s.runs { SameRun(s.runs, id); }
  }

  lemma DeadUploadRefused(s: Store, id: RunId, shard: int, token: Token, upload: Upload)
    requires Dead(s, id, shard, token) && id in s.runs
    requires s.runs[id].registration.Queued() && s.runs[id].status.Collecting?
    ensures Step(s, Finalize(id, shard, upload, Some(token))) == (s, Refused(LeaseLost))
    ensures Step(s, Reserve(id, shard, upload, Some(token))).1.Refused?
    ensures Step(s, Reserve(id, shard, upload, Some(token))).0.runs == s.runs
  {
    StepIs(s, Finalize(id, shard, upload, Some(token)));
    if Accepted(id, shard, upload) { StepIs(s, Reserve(id, shard, upload, Some(token))); }
    SameRun(s.runs, id);
  }

  lemma SameRun(runs: map<RunId, Run>, id: RunId)
    requires id in runs
    ensures runs[id := runs[id]] == runs
  {
  }

  /** The fence stands exactly while a queued run is collecting: otherwise the lease presented with an
      upload, dead or absent, makes no difference. */
  lemma FenceFallsWhenSettled(
    run: Run, shard: int, payload: Upload, lease: Option<Token>, other: Option<Token>, now: int)
    requires !run.registration.Queued() || Settled(run)
    ensures ReserveShard(run, shard, payload, lease, now) == ReserveShard(run, shard, payload, other, now)
    ensures FinalizeShard(run, shard, payload, lease, now) == FinalizeShard(run, shard, payload, other, now)
  {
  }

  // ---- Queue conservation ----

  function LiveShards(queue: map<int, QueueRow>, now: int): set<int> { set i | i in queue && Live(queue[i], now) }

  function FinishedShards(queue: map<int, QueueRow>): set<int> { set i | i in queue && queue[i].Finished? }

  /** In a collecting run every shard is available, leased or finished, and exactly one of them. */
  lemma QueueSplits(registration: Registration, done: set<int>, queue: map<int, QueueRow>, now: int)
    requires QueueValid(registration, done, Collecting, queue)
    ensures queue.Keys == Available(queue, now) + LiveShards(queue, now) + FinishedShards(queue)
    ensures |queue.Keys| == |Available(queue, now)| + |LiveShards(queue, now)| + |FinishedShards(queue)|
  {
    var free, live, finished := Available(queue, now), LiveShards(queue, now), FinishedShards(queue);
    forall i ensures i in queue.Keys <==> i in free + live + finished {}
    assert free !! live && (free + live) !! finished;
  }

  lemma ShardsAddUp(registration: Registration, done: set<int>, queue: map<int, QueueRow>, now: int)
    requires QueueValid(registration, done, Collecting, queue) && registration.Queued()
    requires registration.expectedShards >= 1 && done <= Shards(registration) && done != Shards(registration)
    ensures var open := |Available(queue, now)| + |LiveShards(queue, now)|;
            open + |FinishedShards(queue)| == registration.expectedShards && open >= 1
  {
    QueueSplits(registration, done, queue, now);
    RangeSize(registration.expectedShards);
    assert FinishedShards(queue) == done;
    SubsetSize(done, Shards(registration));
  }

  lemma CollectingConserves(run: Run, now: int, issued: Token)
    requires RunValid(run, now, issued) && run.registration.Queued() && run.status.Collecting?
    ensures var q := QueueStatusOf(run, now);
            q.pending + q.leased + q.completed == q.expected && q.pending + q.leased >= 1 && q.available == q.pending
  {
    ShardsAddUp(run.registration, CompleteReceipts(run.receipts), run.queue, now);
  }

  lemma SettledOffersNothing(run: Run, now: int, issued: Token)
    requires RunValid(run, now, issued) && Settled(run)
    ensures var q := QueueStatusOf(run, now);
            q.available == 0 && q.pending == 0 && q.leased == 0
  {
    assert Available(run.queue, now) == {};
    assert LiveShards(run.queue, now) == {};
  }

  /** Queue status of every reachable queued run: shards are conserved while it collects and work is
      left; nothing is offered or held once it settled; a row is finished exactly when its receipt is. */
  lemma QueueConservation(events: seq<Event>, id: RunId)
    requires id in After(EMPTY, events).runs && After(EMPTY, events).runs[id].registration.Queued()
    ensures var s := After(EMPTY, events);
            var run := s.runs[id];
            var q := QueueStatusOf(run, s.now);
            && (run.status.Collecting? ==>
                  && q.pending + q.leased + q.completed == q.expected && q.pending + q.leased >= 1
                  && q.available == q.pending)
            && (Settled(run) ==> q.available == 0 && q.pending == 0 && q.leased == 0)
            && (forall i | 0 <= i < q.expected ::
                  i in run.queue && (run.queue[i].Finished? <==> i in run.receipts && run.receipts[i].complete))
  {
    ReachableValid(events);
    var s := After(EMPTY, events);
    if s.runs[id].status.Collecting? {
      CollectingConserves(s.runs[id], s.now, s.issued);
    } else {
      SettledOffersNothing(s.runs[id], s.now, s.issued);
    }
    FinishedMeansComplete(s.runs[id], s.now, s.issued);
  }

  lemma FinishedMeansComplete(run: Run, now: int, issued: Token)
    requires RunValid(run, now, issued) && run.registration.Queued()
    ensures forall i | 0 <= i < run.registration.expectedShards ::
              i in run.queue && (run.queue[i].Finished? <==> i in run.receipts && run.receipts[i].complete)
  {
  }

  // ---- No shard is lost ----

  /** Whether a step leases the shard or extends its lease. */
  predicate Leases(e: Event, reply: Reply, id: RunId, shard: int) {
    || (e.Claim? && e.id == id && reply.Claimed? && reply.shard == shard)
    || (e.Renew? && e.id == id && e.shard == shard && reply.Renewed?)
  }

  predicate LeftAlone(s: Store, events: seq<Event>, id: RunId, shard: int)
    decreases |events|
  {
    events != [] ==>
      !Leases(events[0], Step(s, events[0]).1, id, shard) && LeftAlone(Step(s, events[0]).0, events[1..], id, shard)
  }

  /** A row whose lease, if any, ends by `bound`. */
  predicate LapsesBy(queue: map<int, QueueRow>, shard: int, bound: int) {
    shard in queue ==> (queue[shard].Leased? ==> queue[shard].expires <= bound)
  }

  lemma LapseStep(id: RunId, run: Run, e: Event, now: int, issued: Token, shard: int, bound: int)
    requires !e.Advance? && !e.Register? && e.id == id
    requires LeasesValid(run.queue, now, issued) && LapsesBy(run.queue, shard, bound)
    requires !Leases(e, OnRun(run, e, now, issued).1, id, shard)
    ensures LapsesBy(OnRun(run, e, now, issued).0.queue, shard, bound)
  {
  }

  lemma {:induction false} LapseRun(s: Store, events: seq<Event>, id: RunId, shard: int, bound: int)
    requires Valid(s) && id in s.runs && LapsesBy(s.runs[id].queue, shard, bound)
    requires LeftAlone(s, events, id, shard)
    ensures Valid(After(s, events)) && id in After(s, events).runs
    ensures LapsesBy(After(s, events).runs[id].queue, shard, bound)
    decreases |events|
  {
    if events != [] {
      var e := events[0];
      StepEffect(s, e, id);
      StepKeeps(s, e);
      if Targets(e, id) { LapseStep(id, s.runs[id], e, s.now, s.issued, shard, bound); }
      LapseRun(Step(s, e).0, events[1..], id, shard, bound);
    }
  }

  /** No shard is lost: if nobody leases or renews an unfinished shard of a collecting queued run for one
      lease duration, it is available again, whoever held it and whatever else happened. */
  lemma NoShardIsLost(s: Store, events: seq<Event>, id: RunId, shard: int)
    requires Valid(s) && id in s.runs && s.runs[id].registration.Queued()
    requires LeftAlone(s, events, id, shard)
    ensures var later := After(s, events);
            && id in later.runs
            && (later.now >= s.now + LEASE && later.runs[id].status.Collecting?
                && shard in later.runs[id].queue && !later.runs[id].queue[shard].Finished? ==>
                  shard in Available(later.runs[id].queue, later.now))
  {
    LapseRun(s, events, id, shard, s.now + LEASE);
  }

  // ---- Claims ----

  /** A worker never holds two live leases of one run. */
  lemma OneLeasePerWorker(events: seq<Event>, id: RunId, worker: WorkerId)
    requires id in After(EMPTY, events).runs
    ensures var s := After(EMPTY, events);
            |LiveOwned(s.runs[id].queue, worker, s.now)| <= 1
  {
    ReachableValid(events);
    var s := After(EMPTY, events);
    var mine := LiveOwned(s.runs[id].queue, worker, s.now);
    if mine != {} {
      var i := Pick(mine);
      assert forall j | j in mine :: j == i;
      assert mine == {i};
    }
  }

  predicate ClaimRules(run: Run, worker: WorkerId, now: int, issued: Token) {
    var (after, reply) := ClaimShard(run, worker, issued, now);
    && (forall i | i in LiveOwned(run.queue, worker, now) ::
          && reply == Claimed(i, issued, now + LEASE)
          && after.queue == run.queue[i := Leased(worker, issued, now + LEASE)]
          && !HoldsLease(after.queue, i, run.queue[i].token, now))
    && (LiveOwned(run.queue, worker, now) == {} ==>
          && (reply == Refused(QueueEmpty) <==> Available(run.queue, now) == {})
          && (reply.Claimed? ==>
                && reply.shard in Available(run.queue, now)
                && (forall i | i in Available(run.queue, now) :: reply.shard <= i)
                && after.queue == run.queue[reply.shard := Leased(worker, issued, now + LEASE)]))
    && (reply.Claimed? <==> after != run)
    && (reply.Claimed? ==> HoldsLease(after.queue, reply.shard, issued, now))
  }

  lemma ClaimFollowsRules(run: Run, worker: WorkerId, now: int, issued: Token)
    requires LeasesValid(run.queue, now, issued) && run.registration.Queued() && run.status.Collecting?
    ensures ClaimRules(run, worker, now, issued)
  {
    var after := ClaimShard(run, worker, issued, now).0;
    var mine := LiveOwned(run.queue, worker, now);
    forall i | i in mine
      ensures mine == {i} && after.queue == run.queue[i := Leased(worker, issued, now + LEASE)]
    {
      assert forall j | j in mine :: j == i;
      assert mine == {i};
    }
  }

  /** In every reachable state, a claim on a collecting queued run rotates the token of the lease the worker already
      holds; otherwise it takes the lowest available shard, and reports empty exactly when there is none. */
  lemma ClaimDiscipline(events: seq<Event>, id: RunId, worker: WorkerId)
    requires id in After(EMPTY, events).runs
    requires After(EMPTY, events).runs[id].registration.Queued() && After(EMPTY, events).runs[id].status.Collecting?
    ensures var s := After(EMPTY, events);
            ClaimRules(s.runs[id], worker, s.now, s.issued)
  {
    ReachableValid(events);
    var s := After(EMPTY, events);
    ClaimFollowsRules(s.runs[id], worker, s.now, s.issued);
  }

  // ---- Receipts ----

  lemma PinnedStep(run: Run, e: Event, now: int, issued: Token, shard: int)
    requires !e.Advance? && !e.Register? && shard in run.receipts
    ensures var after := OnRun(run, e, now, issued).0;
            && shard in after.receipts && after.receipts[shard].payload == run.receipts[shard].payload
            && (run.receipts[shard].complete ==> after.receipts[shard].complete)
            && after.registration == run.registration
  {
  }

  /** A shard's first reservation fixes its payload in every later state, and a completed receipt stays
      complete. */
  lemma {:induction false} ReceiptIsPinned(s: Store, events: seq<Event>, id: RunId, shard: int)
    requires Valid(s) && id in s.runs && shard in s.runs[id].receipts
    ensures var later := After(s, events);
            && id in later.runs && shard in later.runs[id].receipts
            && later.runs[id].receipts[shard].payload == s.runs[id].receipts[shard].payload
            && (s.runs[id].receipts[shard].complete ==> later.runs[id].receipts[shard].complete)
    decreases |events|
  {
    if events != [] {
      var e := events[0];
      StepEffect(s, e, id);
      StepKeeps(s, e);
      if Targets(e, id) { PinnedStep(s.runs[id], e, s.now, s.issued, shard); }
      ReceiptIsPinned(Step(s, e).0, events[1..], id, shard);
    }
  }

  /** Whether a step is the one that completes the shard. */
  predicate Completes(e: Event, reply: Reply, id: RunId, shard: int) {
    e.Finalize? && e.id == id && e.shard == shard && reply == Created(true)
  }

  function Completions(s: Store, events: seq<Event>, id: RunId, shard: int): nat
    decreases |events|
  {
    if events == [] then 0
    else (if Completes(events[0], Step(s, events[0]).1, id, shard) then 1 else 0)
         + Completions(Step(s, events[0]).0, events[1..], id, shard)
  }

  predicate IsComplete(s: Store, id: RunId, shard: int) {
    id in s.runs && shard in s.runs[id].receipts && s.runs[id].receipts[shard].complete
  }

  lemma CompletionStep(s: Store, e: Event, id: RunId, shard: int)
    requires Valid(s) && Completes(e, Step(s, e).1, id, shard)
    ensures !IsComplete(s, id, shard) && IsComplete(Step(s, e).0, id, shard)
    ensures id in s.runs && shard in s.runs[id].receipts && s.runs[id].receipts[shard].payload == Normalized(e.upload)
  {
    StepEffect(s, e, id);
  }

  /** `created = true` is answered at most once per shard over any run of steps, and never after the
      shard is complete; so counters driven by it count each shard once. */
  lemma {:induction false} CreatedAtMostOnce(s: Store, events: seq<Event>, id: RunId, shard: int)
    requires Valid(s)
    ensures Completions(s, events, id, shard) <= (if IsComplete(s, id, shard) then 0 else 1)
    decreases |events|
  {
    if events != [] {
      var e := events[0];
      StepKeeps(s, e);
      CreatedAtMostOnce(Step(s, e).0, events[1..], id, shard);
      if Completes(e, Step(s, e).1, id, shard) { CompletionStep(s, e, id, shard); }
      if IsComplete(s, id, shard) {
        StepEffect(s, e, id);
        if Targets(e, id) { PinnedStep(s.runs[id], e, s.now, s.issued, shard); }
      }
    }
  }

  /** A finalize completes the shard exactly when it is not fenced off, presents the pinned payload of a
      shard not yet complete, and contradicts no stored case. */
  lemma FinalizeCompletesExactlyWhen(
    run: Run, shard: int, payload: Upload, lease: Option<Token>, now: int, issued: Token)
    requires RunValid(run, now, issued)
    ensures FinalizeShard(run, shard, payload, lease, now).1 == Created(true) <==>
              && !Fenced(run, shard, lease, now)
              && shard in run.receipts && run.receipts[shard] == Receipt(payload, false)
              && forall k | 0 <= k < |payload.cases| :: Compatible(run.rows, payload.cases[k])
  {
    if shard in run.receipts && run.receipts[shard].payload == payload {
      InsertCasesSpec(run.rows, shard, run.registration.pricing, payload.cases);
    }
  }

  /** Every refusal, a conflicting case among them, leaves all stored state as it was. */
  lemma RefusalChangesNothing(s: Store, e: Event)
    requires Step(s, e).1.Refused?
    ensures Step(s, e).0.runs == s.runs && Step(s, e).0.now == s.now
  {
    if !e.Advance? && e.id in s.runs { SameRun(s.runs, e.id); }
  }

  /** Sending a completed shard's document again is a no-op that answers "already complete", except that a
      queued run still collecting refuses it: the shard's lease went with its completion. */
  lemma ResendOutcome(run: Run, shard: int, lease: Option<Token>, now: int, issued: Token)
    requires RunValid(run, now, issued) && shard in run.receipts && run.receipts[shard].complete
    ensures var payload := run.receipts[shard].payload;
            ReserveShard(run, shard, payload, lease, now) ==
            (run, if run.registration.Queued() && run.status.Collecting? then Refused(LeaseLost) else Reserved(true))
  {
    assert shard in CompleteReceipts(run.receipts);
  }

  // ---- Repeating a call ----

  lemma RegistrationStep(run: Run, e: Event, now: int, issued: Token)
    requires !e.Advance? && !e.Register?
    ensures OnRun(run, e, now, issued).0.registration == run.registration
  {
  }

  lemma {:induction false} RegistrationStays(s: Store, events: seq<Event>, id: RunId)
    requires Valid(s) && id in s.runs
    ensures Valid(After(s, events)) && id in After(s, events).runs
    ensures After(s, events).runs[id].registration == s.runs[id].registration
    decreases |events|
  {
    if events != [] {
      var e := events[0];
      StepEffect(s, e, id);
      StepKeeps(s, e);
      if Targets(e, id) { RegistrationStep(s.runs[id], e, s.now, s.issued); }
      RegistrationStays(Step(s, e).0, events[1..], id);
    }
  }

  /** A registration is immutable: at any later time the same one is accepted and changes nothing, and a different
      one conflicts. */
  lemma RegisterRepeats(s: Store, events: seq<Event>, id: RunId, registration: Registration)
    requires Valid(s) && id in s.runs && WellFormed(Register(id, registration))
    ensures Step(After(s, events), Register(id, registration)) ==
            (After(s, events), if registration == s.runs[id].registration then Created(false) else Refused(Conflict))
  {
    RegistrationStays(s, events, id);
    var later := After(s, events);
    var run := later.runs[id];
    EnqueueAgain(run, later.now, later.issued);
    SameRun(later.runs, id);
    assert run.(queue := run.queue) == run;
  }

  /** A termination is final: at any later time the same request is accepted and changes nothing, and a different
      status or reason conflicts. */
  lemma TerminateRepeats(s: Store, events: seq<Event>, id: RunId, request: TerminalRequest, again: TerminalRequest)
    requires Valid(s) && WellFormed(Terminate(id, again))
    requires Step(s, Terminate(id, request)).1 == Created(true)
    ensures var later := After(Step(s, Terminate(id, request)).0, events);
            && id in later.runs && later.runs[id].status == request.status
            && Step(later, Terminate(id, again)) ==
               (later, if again == request then Created(false) else Refused(Conflict))
  {
    var ended := Step(s, Terminate(id, request)).0;
    TerminationTakes(s, id, request);
    TerminalStatusAbsorbs(ended, events, id);
    TerminatedConflicts(After(ended, events), id, request, again);
  }

  lemma TerminationTakes(s: Store, id: RunId, request: TerminalRequest)
    requires Valid(s) && Step(s, Terminate(id, request)).1 == Created(true)
    ensures var ended := Step(s, Terminate(id, request)).0;
            && Valid(ended) && id in ended.runs && (request.status.Cancelled? || request.status.HarnessFailed?)
            && ended.runs[id].status == request.status && ended.runs[id].terminal == Some(request)
  {
    StepKeeps(s, Terminate(id, request));
    StepEffect(s, Terminate(id, request), id);
  }

  lemma TerminatedConflicts(s: Store, id: RunId, request: TerminalRequest, again: TerminalRequest)
    requires id in s.runs && s.runs[id].status == request.status
    requires request.status.Cancelled? || request.status.HarnessFailed?
    requires s.runs[id].terminal == Some(request) && WellFormed(Terminate(id, again))
    ensures Step(s, Terminate(id, again)) == (s, if again == request then Created(false) else Refused(Conflict))
  {
    SameRun(s.runs, id);
  }

  lemma LeaseGiven(run: Run, e: Event, now: int, issued: Token, shard: int)
    requires (e.Claim? || e.Renew?) && LeasesValid(run.queue, now, issued)
    requires Leases(e, OnRun(run, e, now, issued).1, e.id, shard)
    ensures var (after, reply) := OnRun(run, e, now, issued);
            && shard in after.queue && after.queue[shard].Leased? && after.queue[shard].expires == now + LEASE
            && after.queue[shard].token == if e.Claim? then reply.token else e.token
  {
    if e.Claim? { ClaimFollowsRules(run, e.worker, now, issued); }
  }

  /** A lease that was just given or extended holds for exactly the lease duration. */
  lemma LeaseLasts(s: Store, e: Event, id: RunId, shard: int, elapsed: nat)
    requires Valid(s) && id in s.runs && Targets(e, id)
    requires Leases(e, OnRun(s.runs[id], e, s.now, s.issued).1, id, shard)
    ensures var token := if e.Claim? then OnRun(s.runs[id], e, s.now, s.issued).1.token else e.token;
            Holds(Step(Step(s, e).0, Advance(elapsed)).0, id, shard, token) <==> elapsed < LEASE
  {
    LeaseGiven(s.runs[id], e, s.now, s.issued, shard);
    StepEffect(s, e, id);
  }

  // ---- Stored cases ----

  lemma {:induction false} InsertKeepsRows(
    rows: seq<CaseRow>, shard: int, pricing: Option<RunPricing>, cases: seq<CaseResult>)
    requires InsertCases(rows, shard, pricing, cases).Some?
    ensures rows <= InsertCases(rows, shard, pricing, cases).value
    decreases |cases|
  {
    if cases != [] {
      InsertKeepsRows(InsertCase(rows, NewRow(shard, pricing, cases[0])).value, shard, pricing, cases[1..]);
    }
  }

  lemma RowsStep(run: Run, e: Event, now: int, issued: Token)
    requires !e.Advance? && !e.Register?
    ensures run.rows <= OnRun(run, e, now, issued).0.rows
  {
    if e.Finalize? {
      var payload := Normalized(e.upload);
      if InsertCases(run.rows, e.shard, run.registration.pricing, payload.cases).Some? {
        InsertKeepsRows(run.rows, e.shard, run.registration.pricing, payload.cases);
      }
    }
  }

  /** A stored case is never changed or removed: later rows extend earlier ones. */
  lemma {:induction false} RowsOnlyGrow(s: Store, events: seq<Event>, id: RunId)
    requires Valid(s) && id in s.runs
    ensures id in After(s, events).runs && s.runs[id].rows <= After(s, events).runs[id].rows
    decreases |events|
  {
    if events != [] {
      var e := events[0];
      StepEffect(s, e, id);
      StepKeeps(s, e);
      if Targets(e, id) { RowsStep(s.runs[id], e, s.now, s.issued); }
      RowsOnlyGrow(Step(s, e).0, events[1..], id);
    }
  }

  // ---- Resuming an upload ----

  /** An upload that stopped after its reservation, for instance because the raw document could not be written, is
      taken up by sending the same document again: whenever it is not fenced off it is reserved, and then completes
      unless it contradicts a stored case. Another document for the shard conflicts. */
  lemma UploadResumes(run: Run, shard: int, payload: Upload, lease: Option<Token>, now: int, issued: Token)
    requires RunValid(run, now, issued) && shard in run.receipts && !run.receipts[shard].complete
    requires !Fenced(run, shard, lease, now)
    ensures
      var (reserved, reply) := ReserveShard(run, shard, payload, lease, now);
      && reserved == run
      && reply == (if payload == run.receipts[shard].payload then Reserved(false) else Refused(Conflict))
      && (reply == Reserved(false) ==>
            (FinalizeShard(run, shard, payload, lease, now).1 == Created(true) <==>
             forall k | 0 <= k < |payload.cases| :: Compatible(run.rows, payload.cases[k])))
  {
    assert shard in Shards(run.registration);
    FinalizeCompletesExactlyWhen(run, shard, payload, lease, now, issued);
  }
}
