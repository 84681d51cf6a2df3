/** Runs in which a promise about uploads fails. */
module ShardWitnesses {
  import opened Collections
  import opened Texts
  import opened Uploads
  import opened ShardStore
  import opened ShardInvariant
  import opened ShardTheorems

  lemma {:induction false} AfterOneMore(s: Store, events: seq<Event>, e: Event)
    ensures After(s, events + [e]) == Step(After(s, events), e).0
    decreases |events|
  {
    if events == [] {
      assert [e][1..] == [];
    } else {
      assert (events + [e])[1..] == events[1..] + [e];
      AfterOneMore(Step(s, events[0]).0, events[1..], e);
    }
  }

  /** A queued run of two shards. */
  function TwoShards(): Registration { Registration(2, Keda, None, "") }

  function Registered(id: RunId): Store { Store(map[id := NewRun(TwoShards())], 0, 0) }

  lemma RegisterFirst(id: RunId)
    ensures Step(EMPTY, Register(id, TwoShards())).0 == Registered(id)
  {
  }

  function FirstClaimed(worker: WorkerId): Run {
    NewRun(TwoShards()).(queue := map[0 := Leased(worker, 0, LEASE), 1 := Queued])
  }

  lemma FirstQueue()
    ensures NewRun(TwoShards()).queue == map[0 := Queued, 1 := Queued]
    ensures Available(NewRun(TwoShards()).queue, 0) == {0, 1}
    ensures forall worker :: LiveOwned(NewRun(TwoShards()).queue, worker, 0) == {}
  {
    assert Range(2) == {0, 1};
  }

  lemma ClaimFirst(worker: WorkerId)
    ensures ClaimShard(NewRun(TwoShards()), worker, 0, 0) == (FirstClaimed(worker), Claimed(0, 0, LEASE))
  {
    FirstQueue();
    var queue := NewRun(TwoShards()).queue;
    assert LiveOwned(queue, worker, 0) == {};
    assert 0 in Available(queue, 0) && Least(Available(queue, 0)) == 0;
    assert queue[0 := Leased(worker, 0, LEASE)] == FirstClaimed(worker).queue;
  }

  function OneRun(id: RunId, run: Run, now: int): Store { Store(map[id := run], now, 1) }

  lemma ClaimedStore(id: RunId, worker: WorkerId) returns (events: seq<Event>)
    requires !Blank(worker)
    ensures After(EMPTY, events) == OneRun(id, FirstClaimed(worker), 0)
  {
    var register, claim := Register(id, TwoShards()), Claim(id, worker);
    RegisterFirst(id);
    AfterOneMore(EMPTY, [], register);
    AfterOneMore(EMPTY, [] + [register], claim);
    StepIs(Registered(id), claim);
    ClaimFirst(worker);
    events := [] + [register] + [claim];
    assert Registered(id).runs[id := FirstClaimed(worker)] == map[id := FirstClaimed(worker)];
  }

  /** A document of shard 0 without cases, as it is stored. */
  predicate EmptyDocument(id: RunId, doc: Upload) {
    Accepted(id, 0, doc) && Normalized(doc) == doc && doc.cases == []
  }

  lemma FinalizeEmpty(run: Run, doc: Upload, lease: Option<Token>, now: int)
    requires run.registration == TwoShards() && run.receipts == map[0 := Receipt(doc, false)] && doc.cases == []
    requires !Fenced(run, 0, lease, now)
    ensures
      var (after, reply) := FinalizeShard(run, 0, doc, lease, now);
      && reply == Created(true) && after.receipts == map[0 := Receipt(doc, true)]
      && after.registration == TwoShards() && (run.status.Collecting? ==> after.status.Collecting?)
  {
    var after := FinalizeShard(run, 0, doc, lease, now).0;
    assert CompleteReceipts(after.receipts) == {0};
  }

  lemma ReserveEmpty(run: Run, doc: Upload, lease: Option<Token>, now: int)
    requires run.registration == TwoShards() && run.receipts == map[] && !Fenced(run, 0, lease, now)
    ensures
      ReserveShard(run, 0, doc, lease, now) == (run.(receipts := map[0 := Receipt(doc, false)]), Reserved(false))
  {
  }

  lemma ReserveStep(s: Store, id: RunId, doc: Upload, lease: Option<Token>)
    requires id in s.runs && Accepted(id, 0, doc) && Normalized(doc) == doc
    ensures
      var (run, reply) := ReserveShard(s.runs[id], 0, doc, lease, s.now);
      Step(s, Reserve(id, 0, doc, lease)) == (s.(runs := s.runs[id := run]), reply)
  {
    StepIs(s, Reserve(id, 0, doc, lease));
  }

  lemma FinalizeStep(s: Store, id: RunId, doc: Upload, lease: Option<Token>)
    requires id in s.runs && Normalized(doc) == doc
    ensures
      var (run, reply) := FinalizeShard(s.runs[id], 0, doc, lease, s.now);
      Step(s, Finalize(id, 0, doc, lease)) == (s.(runs := s.runs[id := run]), reply)
  {
    StepIs(s, Finalize(id, 0, doc, lease));
  }

  /** Reserve and finalize of such a document, by any lease that is not fenced off. */
  lemma UploadEmpty(s: Store, id: RunId, doc: Upload, lease: Option<Token>)
    requires EmptyDocument(id, doc) && id in s.runs
    requires s.runs[id].registration == TwoShards() && s.runs[id].receipts == map[]
    requires !Fenced(s.runs[id], 0, lease, s.now)
    ensures
      var (reserved, first) := Step(s, Reserve(id, 0, doc, lease));
      var (finished, second) := Step(reserved, Finalize(id, 0, doc, lease));
      && first == Reserved(false) && second == Created(true)
      && id in finished.runs && finished.runs[id].receipts == map[0 := Receipt(doc, true)]
      && finished.runs[id].registration == TwoShards()
      && (s.runs[id].status.Collecting? ==> finished.runs[id].status.Collecting?)
  {
    ReserveStep(s, id, doc, lease);
    ReserveEmpty(s.runs[id], doc, lease, s.now);
    var reserved := Step(s, Reserve(id, 0, doc, lease)).0;
    FinalizeStep(reserved, id, doc, lease);
    FinalizeEmpty(reserved.runs[id], doc, lease, reserved.now);
  }

  lemma SomeDocument(id: RunId) returns (doc: Upload)
    requires RunName(id)
    ensures EmptyDocument(id, doc)
  {
    EmptyAccepted(id, 0);
    doc := EmptyUpload(id, 0);
  }

  /** Two shards, one of them complete, the run still collecting: the completed shard's own document is refused,
      whatever lease comes with it. */
  lemma ResendIsRefused(id: RunId, worker: WorkerId, lease: Option<Token>) returns (events: seq<Event>, doc: Upload)
    requires RunName(id) && !Blank(worker)
    ensures
      var s := After(EMPTY, events);
      && id in s.runs && s.runs[id].registration.Queued() && s.runs[id].status.Collecting?
      && s.runs[id].receipts == map[0 := Receipt(doc, true)] && Accepted(id, 0, doc)
      && Step(s, Reserve(id, 0, doc, lease)).1 == Refused(LeaseLost)
  {
    doc := SomeDocument(id);
    events := ClaimedStore(id, worker);
    UploadEmpty(After(EMPTY, events), id, doc, Some(0));
    AfterOneMore(EMPTY, events, Reserve(id, 0, doc, Some(0)));
    events := events + [Reserve(id, 0, doc, Some(0))];
    AfterOneMore(EMPTY, events, Finalize(id, 0, doc, Some(0)));
    events := events + [Finalize(id, 0, doc, Some(0))];
    ReachableValid(events);
    RefusedAgain(After(EMPTY, events), id, doc, lease);
  }

  lemma RefusedAgain(s: Store, id: RunId, doc: Upload, lease: Option<Token>)
    requires EmptyDocument(id, doc) && id in s.runs && RunValid(s.runs[id], s.now, s.issued)
    requires s.runs[id].registration.Queued() && s.runs[id].status.Collecting?
    requires s.runs[id].receipts == map[0 := Receipt(doc, true)]
    ensures Step(s, Reserve(id, 0, doc, lease)).1 == Refused(LeaseLost)
  {
    ReserveStep(s, id, doc, lease);
    ResendOutcome(s.runs[id], 0, lease, s.now, s.issued);
  }

  /** A lease that ran out before the run was cancelled still completes its shard afterwards. */
  lemma DeadTokenCompletes(id: RunId, worker: WorkerId, reason: string) returns (events: seq<Event>, doc: Upload)
    requires RunName(id) && !Blank(worker)
    ensures
      var s := After(EMPTY, events);
      && Dead(s, id, 0, 0) && id in s.runs && s.runs[id].status == Cancelled && Accepted(id, 0, doc)
      && var (reserved, first) := Step(s, Reserve(id, 0, doc, Some(0)));
         first == Reserved(false) && Step(reserved, Finalize(id, 0, doc, Some(0))).1 == Created(true)
  {
    doc := SomeDocument(id);
    events := ClaimedStore(id, worker);
    var late := OneRun(id, FirstClaimed(worker), LEASE);
    AfterOneMore(EMPTY, events, Advance(LEASE));
    events := events + [Advance(LEASE)];
    assert After(EMPTY, events) == late;
    var terminate := Terminate(id, TerminalRequest(Cancelled, reason));
    AfterOneMore(EMPTY, events, terminate);
    StepIs(late, terminate);
    events := events + [terminate];
    UploadEmpty(After(EMPTY, events), id, doc, Some(0));
  }
}
