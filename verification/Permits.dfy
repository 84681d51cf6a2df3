/** Distributed execution permits: leases that bound concurrency and a table of rate events that bounds
    new grants per minute.

    Permit ids and lease tokens come from one counter, so they are fresh. `history` is bookkeeping of
    the model: every event ever recorded, including those the table has dropped. Times are
    microseconds of a clock that never goes back. */
module Permits {
  import opened Collections

  const MINUTE: int := 60_000_000
  const HOUR: int := 3_600_000_000

  datatype Limit = Limit(maxConcurrency: int, requestsPerMinute: int)

  /** A limit of zero, or a provider without one, is unlimited. */
  datatype Policy = Policy(overall: Limit, providers: map<string, Limit>, lease: nat)

  function ProviderLimit(policy: Policy, provider: string): Limit {
    if provider in policy.providers then policy.providers[provider] else Limit(0, 0)
  }

  datatype Permit = Permit(
    id: nat, run: string, provider: string, token: nat, expires: int, released: Option<int>, updated: int)

  datatype RateEvent = RateEvent(request: string, provider: string, at: int)

  /** Permits are unique by request. */
  datatype Limiter = Limiter(
    permits: map<string, Permit>, events: seq<RateEvent>, now: int, issued: nat, history: seq<RateEvent>)

  /** What the run table says of the run a permit is requested for. */
  datatype RunView = Missing | Present(collecting: bool, provider: string)

  datatype Error = NotFound | LeaseLost | Invalid | DuplicateEvent

  datatype Reply =
    | Granted(id: nat, token: nat, expires: int)
    | Extended(expires: int)
    | Released
    | Busy(retryAfterMs: int)
    | Refused(error: Error)
    | Elapsed

  datatype Call =
    | Advance(elapsed: nat)
    | Acquire(run: string, view: RunView, request: string, provider: string)
    | Renew(run: string, id: nat, token: nat)
    | Release(run: string, id: nat, token: nat)

  predicate Active(p: Permit, now: int) { p.released.None? && p.expires > now }

  predicate Stale(p: Permit, now: int) { p.updated < now - HOUR && (p.released.Some? || p.expires <= now) }

  function Pruned(permits: map<string, Permit>, now: int): map<string, Permit> {
    map r | r in permits && !Stale(permits[r], now) :: permits[r]
  }

  function ActiveRequests(permits: map<string, Permit>, now: int): set<string> {
    set r | r in permits && Active(permits[r], now)
  }

  function ActiveFor(permits: map<string, Permit>, now: int, provider: string): set<string> {
    set r | r in permits && Active(permits[r], now) && permits[r].provider == provider
  }

  function ForProvider(events: seq<RateEvent>, provider: string): seq<RateEvent> {
    if events == [] then []
    else
      var last := events[|events| - 1];
      ForProvider(events[..|events| - 1], provider) + if last.provider == provider then [last] else []
  }

  /** How many events happened after `t`. */
  function CountSince(events: seq<RateEvent>, t: int): nat {
    if events == [] then 0
    else CountSince(events[..|events| - 1], t) + if events[|events| - 1].at > t then 1 else 0
  }

  /** Events not older than `t`, in order. */
  function Kept(events: seq<RateEvent>, t: int): seq<RateEvent> {
    if events == [] then []
    else
      var last := events[|events| - 1];
      Kept(events[..|events| - 1], t) + if last.at < t then [] else [last]
  }

  predicate Recorded(events: seq<RateEvent>, request: string) {
    exists i :: 0 <= i < |events| && events[i].request == request
  }

  predicate Reached(limit: int, used: int) { limit > 0 && used >= limit }

  predicate ConcurrencyReached(policy: Policy, permits: map<string, Permit>, now: int, provider: string) {
    || Reached(policy.overall.maxConcurrency, |ActiveRequests(permits, now)|)
    || Reached(ProviderLimit(policy, provider).maxConcurrency, |ActiveFor(permits, now, provider)|)
  }

  predicate RateReached(policy: Policy, events: seq<RateEvent>, now: int, provider: string) {
    || Reached(policy.overall.requestsPerMinute, CountSince(events, now - MINUTE))
    || Reached(
         ProviderLimit(policy, provider).requestsPerMinute, CountSince(ForProvider(events, provider), now - MINUTE))
  }

  /** A repeated request keeps its permit under a new token, unless it was given up or ran out. */
  function RefreshPermit(s: Limiter, policy: Policy, permits: map<string, Permit>, request: string): (Limiter, Reply)
    requires request in permits
  {
    if !Active(permits[request], s.now) then (s, Refused(LeaseLost))
    else
      var expires := s.now + policy.lease;
      var refreshed := permits[request].(token := s.issued, expires := expires, updated := s.now);
      (s.(permits := permits[request := refreshed], issued := s.issued + 1), Granted(refreshed.id, s.issued, expires))
  }

  /** The permit row, the rate event under the request's key, and the pruning of old events. */
  function InsertPermit(
    s: Limiter, policy: Policy, permits: map<string, Permit>, run: string, request: string, provider: string)
    : (Limiter, Reply)
  {
    if Recorded(s.events, request) then (s, Refused(DuplicateEvent))
    else
      var expires := s.now + policy.lease;
      var permit := Permit(s.issued, run, provider, s.issued, expires, None, s.now);
      var event := RateEvent(request, provider, s.now);
      (s.(permits := permits[request := permit], events := Kept(s.events + [event], s.now - HOUR),
          issued := s.issued + 1, history := s.history + [event]),
       Granted(s.issued, s.issued, expires))
  }

  /** A transaction that fails rolls back everything, its pruning included. */
  function AcquirePermit(s: Limiter, policy: Policy, run: string, view: RunView, request: string, provider: string)
    : (Limiter, Reply)
  {
    var permits := Pruned(s.permits, s.now);
    if view.Missing? then (s, Refused(NotFound))
    else if !view.collecting then (s, Refused(LeaseLost))
    else if view.provider != provider then (s, Refused(Invalid))
    else if request in permits then RefreshPermit(s, policy, permits, request)
    else if ConcurrencyReached(policy, permits, s.now, provider) then (s, Busy(250))
    else if RateReached(policy, s.events, s.now, provider) then (s, Busy(1000))
    else InsertPermit(s, policy, permits, run, request, provider)
  }

  predicate Matches(p: Permit, run: string, id: nat, token: nat) { p.run == run && p.id == id && p.token == token }

  function RenewPermit(s: Limiter, policy: Policy, run: string, id: nat, token: nat): (Limiter, Reply) {
    var expires := s.now + policy.lease;
    if exists r :: r in s.permits && Matches(s.permits[r], run, id, token) && Active(s.permits[r], s.now) then
      (s.(permits := map r | r in s.permits ::
            if Matches(s.permits[r], run, id, token) && Active(s.permits[r], s.now)
            then s.permits[r].(expires := expires, updated := s.now) else s.permits[r]),
       Extended(expires))
    else (s, Refused(LeaseLost))
  }

  function ReleasePermit(s: Limiter, run: string, id: nat, token: nat): (Limiter, Reply) {
    if exists r :: r in s.permits && Matches(s.permits[r], run, id, token) then
      (s.(permits := map r | r in s.permits ::
            if Matches(s.permits[r], run, id, token)
            then s.permits[r].(released := if s.permits[r].released.Some? then s.permits[r].released else Some(s.now),
                               updated := s.now)
            else s.permits[r]),
       Released)
    else (s, Refused(LeaseLost))
  }

  function Step(s: Limiter, policy: Policy, c: Call): (Limiter, Reply) {
    match c
    case Advance(elapsed) => (s.(now := s.now + elapsed), Elapsed)
    case Acquire(run, view, request, provider) => AcquirePermit(s, policy, run, view, request, provider)
    case Renew(run, id, token) => RenewPermit(s, policy, run, id, token)
    case Release(run, id, token) => ReleasePermit(s, run, id, token)
  }

  function After(s: Limiter, policy: Policy, calls: seq<Call>): Limiter
    decreases |calls|
  {
    if calls == [] then s else After(Step(s, policy, calls[0]).0, policy, calls[1..])
  }

  const EMPTY := Limiter(map[], [], 0, 0, [])

  // ---- Concurrency ----

  lemma PruningKeepsActive(permits: map<string, Permit>, now: int, provider: string)
    ensures ActiveRequests(Pruned(permits, now), now) == ActiveRequests(permits, now)
    ensures ActiveFor(Pruned(permits, now), now, provider) == ActiveFor(permits, now, provider)
  {
  }

  predicate WithinLimit(limit: int, used: int) { limit > 0 ==> used <= limit }

  ghost predicate ConcurrencyBounded(policy: Policy, permits: map<string, Permit>, now: int) {
    && WithinLimit(policy.overall.maxConcurrency, |ActiveRequests(permits, now)|)
    && forall p :: WithinLimit(ProviderLimit(policy, p).maxConcurrency, |ActiveFor(permits, now, p)|)
  }

  /** Permits whose active set did not grow still fit. */
  lemma FewerActive(policy: Policy, permits: map<string, Permit>, now: int, after: map<string, Permit>, now': int)
    requires ConcurrencyBounded(policy, permits, now)
    requires forall r | r in after && Active(after[r], now') ::
               r in permits && Active(permits[r], now) && permits[r].provider == after[r].provider
    ensures ConcurrencyBounded(policy, after, now')
  {
    SubsetSize(ActiveRequests(after, now'), ActiveRequests(permits, now));
    forall p ensures WithinLimit(ProviderLimit(policy, p).maxConcurrency, |ActiveFor(after, now', p)|) {
      SubsetSize(ActiveFor(after, now', p), ActiveFor(permits, now, p));
    }
  }

  lemma OneMoreActive(policy: Policy, permits: map<string, Permit>, now: int, request: string, permit: Permit)
    requires ConcurrencyBounded(policy, permits, now) && request !in permits
    requires !ConcurrencyReached(policy, permits, now, permit.provider)
    ensures ConcurrencyBounded(policy, permits[request := permit], now)
  {
    var after := permits[request := permit];
    SubsetSize(ActiveRequests(after, now), ActiveRequests(permits, now) + {request});
    forall p ensures WithinLimit(ProviderLimit(policy, p).maxConcurrency, |ActiveFor(after, now, p)|) {
      if p == permit.provider {
        SubsetSize(ActiveFor(after, now, p), ActiveFor(permits, now, p) + {request});
      } else {
        SubsetSize(ActiveFor(after, now, p), ActiveFor(permits, now, p));
      }
    }
  }

  lemma StepBoundsConcurrency(s: Limiter, policy: Policy, c: Call)
    requires ConcurrencyBounded(policy, s.permits, s.now)
    ensures var after := Step(s, policy, c).0;
            ConcurrencyBounded(policy, after.permits, after.now)
  {
    var after := Step(s, policy, c).0;
    if c.Acquire? && after.permits != s.permits {
      var permits := Pruned(s.permits, s.now);
      FewerActive(policy, s.permits, s.now, permits, s.now);
      if c.request in permits {
        FewerActive(policy, permits, s.now, after.permits, s.now);
      } else {
        OneMoreActive(policy, permits, s.now, c.request, after.permits[c.request]);
      }
    } else {
      FewerActive(policy, s.permits, s.now, after.permits, after.now);
    }
  }

  /** After any calls and any passage of time, unreleased unexpired permits stay within every positive
      maximum, overall and per provider. */
  lemma {:induction false} ConcurrencyBound(s: Limiter, policy: Policy, calls: seq<Call>)
    requires ConcurrencyBounded(policy, s.permits, s.now)
    ensures var later := After(s, policy, calls);
            ConcurrencyBounded(policy, later.permits, later.now)
    decreases |calls|
  {
    if calls != [] {
      StepBoundsConcurrency(s, policy, calls[0]);
      ConcurrencyBound(Step(s, policy, calls[0]).0, policy, calls[1..]);
    }
  }

  lemma EmptyIsBounded(policy: Policy)
    ensures ConcurrencyBounded(policy, EMPTY.permits, EMPTY.now)
  {
    assert ActiveRequests(EMPTY.permits, EMPTY.now) == {};
    assert forall p :: ActiveFor(EMPTY.permits, EMPTY.now, p) == {};
  }

  // ---- A permit that lapsed stays lapsed ----

  predicate IdsIssued(s: Limiter) { forall r | r in s.permits :: s.permits[r].id < s.issued }

  predicate IdActive(s: Limiter, id: nat) {
    exists r :: r in s.permits && s.permits[r].id == id && Active(s.permits[r], s.now)
  }

  lemma IdsStayIssued(s: Limiter, policy: Policy, c: Call)
    requires IdsIssued(s)
    ensures IdsIssued(Step(s, policy, c).0) && Step(s, policy, c).0.issued >= s.issued
  {
  }

  lemma LapsedStep(s: Limiter, policy: Policy, c: Call, id: nat)
    requires id < s.issued && !IdActive(s, id)
    ensures !IdActive(Step(s, policy, c).0, id)
  {
    var after := Step(s, policy, c).0;
    forall r | r in after.permits && after.permits[r].id == id ensures !Active(after.permits[r], after.now) {
      assert r in s.permits;
    }
  }

  lemma {:induction false} IdsIssuedAfter(s: Limiter, policy: Policy, calls: seq<Call>)
    requires IdsIssued(s)
    ensures IdsIssued(After(s, policy, calls))
    decreases |calls|
  {
    if calls != [] {
      IdsStayIssued(s, policy, calls[0]);
      IdsIssuedAfter(Step(s, policy, calls[0]).0, policy, calls[1..]);
    }
  }

  lemma {:induction false} LapsedAfter(s: Limiter, policy: Policy, calls: seq<Call>, id: nat)
    requires IdsIssued(s) && id < s.issued && !IdActive(s, id)
    ensures !IdActive(After(s, policy, calls), id)
    decreases |calls|
  {
    if calls != [] {
      LapsedStep(s, policy, calls[0], id);
      IdsStayIssued(s, policy, calls[0]);
      LapsedAfter(Step(s, policy, calls[0]).0, policy, calls[1..], id);
    }
  }

  /** A permit that is released or expired at some point of a run is not active at any later point, through
      repeats, renewals, releases, pruning and later grants to the same request; and every permit in the tables
      was issued. */
  lemma LapsedForever(policy: Policy, calls: seq<Call>, later: seq<Call>, id: nat)
    requires id < After(EMPTY, policy, calls).issued && !IdActive(After(EMPTY, policy, calls), id)
    ensures !IdActive(After(After(EMPTY, policy, calls), policy, later), id)
    ensures IdsIssued(After(EMPTY, policy, calls))
  {
    IdsIssuedAfter(EMPTY, policy, calls);
    LapsedAfter(After(EMPTY, policy, calls), policy, later, id);
  }

  // ---- Rate ----

  predicate Ordered(h: seq<RateEvent>) { forall i, j | 0 <= i < j < |h| :: h[i].at <= h[j].at }

  /** Any `limit + 1` events in a row span at least a minute. */
  predicate Spaced(h: seq<RateEvent>, limit: int) {
    limit > 0 ==> forall i | 0 <= i && i + limit < |h| :: h[i + limit].at - h[i].at >= MINUTE
  }

  lemma {:induction false} CountTail(h: seq<RateEvent>, k: nat, t: int)
    requires k <= |h| && forall j | k <= j < |h| :: h[j].at > t
    ensures CountSince(h, t) >= |h| - k
  {
    if k < |h| { CountTail(h[..|h| - 1], k, t); }
  }

  lemma SpacedExtends(h: seq<RateEvent>, limit: int, e: RateEvent)
    requires Ordered(h) && Spaced(h, limit) && !Reached(limit, CountSince(h, e.at - MINUTE))
    ensures Spaced(h + [e], limit)
  {
    if limit > 0 && |h| >= limit {
      var k := |h| - limit;
      if h[k].at > e.at - MINUTE { CountTail(h, k, e.at - MINUTE); }
    }
  }

  lemma ForProviderAppend(h: seq<RateEvent>, e: RateEvent, provider: string)
    ensures ForProvider(h + [e], provider) == ForProvider(h, provider) + if e.provider == provider then [e] else []
  {
    assert (h + [e])[..|h|] == h;
  }

  lemma {:induction false} ForProviderOrdered(h: seq<RateEvent>, provider: string)
    requires Ordered(h)
    ensures Ordered(ForProvider(h, provider))
    ensures forall i | 0 <= i < |ForProvider(h, provider)| ::
              h != [] && ForProvider(h, provider)[i].at <= h[|h| - 1].at
  {
    if h != [] { ForProviderOrdered(h[..|h| - 1], provider); }
  }

  /** Dropping a prefix of old events changes no count of recent ones. */
  lemma {:induction false} CountIgnoresOld(old_: seq<RateEvent>, recent: seq<RateEvent>, t: int)
    requires forall i | 0 <= i < |old_| :: old_[i].at <= t
    ensures CountSince(old_ + recent, t) == CountSince(recent, t)
    decreases |old_| + |recent|
  {
    if recent != [] {
      var n := |recent| - 1;
      assert (old_ + recent)[..|old_ + recent| - 1] == old_ + recent[..n];
      CountIgnoresOld(old_, recent[..n], t);
    } else if old_ != [] {
      assert old_ + recent == old_;
      assert old_[..|old_| - 1] + [] == old_[..|old_| - 1];
      CountIgnoresOld(old_[..|old_| - 1], [], t);
    }
  }

  lemma {:induction false} ForProviderSplits(a: seq<RateEvent>, b: seq<RateEvent>, provider: string)
    ensures ForProvider(a + b, provider) == ForProvider(a, provider) + ForProvider(b, provider)
    decreases |b|
  {
    if b != [] {
      var n := |b| - 1;
      assert (a + b)[..|a + b| - 1] == a + b[..n];
      ForProviderSplits(a, b[..n], provider);
    } else {
      assert a + b == a;
    }
  }

  lemma {:induction false} ForProviderOld(h: seq<RateEvent>, provider: string, t: int)
    requires forall i | 0 <= i < |h| :: h[i].at <= t
    ensures forall i | 0 <= i < |ForProvider(h, provider)| :: ForProvider(h, provider)[i].at <= t
  {
    if h != [] { ForProviderOld(h[..|h| - 1], provider, t); }
  }

  /** The table is the history without a prefix older than an hour. */
  predicate IsRecentHistory(events: seq<RateEvent>, history: seq<RateEvent>, now: int) {
    && |events| <= |history|
    && events == history[|history| - |events|..]
    && forall i | 0 <= i < |history| - |events| :: history[i].at < now - HOUR
  }

  predicate Past(h: seq<RateEvent>, now: int) { Ordered(h) && forall i | 0 <= i < |h| :: h[i].at <= now }

  ghost predicate RateBounded(policy: Policy, h: seq<RateEvent>) {
    && Spaced(h, policy.overall.requestsPerMinute)
    && forall p :: Spaced(ForProvider(h, p), ProviderLimit(policy, p).requestsPerMinute)
  }

  ghost predicate RateValid(s: Limiter, policy: Policy) {
    Past(s.history, s.now) && IsRecentHistory(s.events, s.history, s.now) && RateBounded(policy, s.history)
  }

  /** Rate decisions are the same on the pruned table as on the full history. */
  lemma RateIgnoresPruning(events: seq<RateEvent>, history: seq<RateEvent>, now: int, policy: Policy, provider: string)
    requires IsRecentHistory(events, history, now)
    ensures RateReached(policy, events, now, provider) == RateReached(policy, history, now, provider)
  {
    var dropped := history[..|history| - |events|];
    assert history == dropped + events;
    CountIgnoresOld(dropped, events, now - MINUTE);
    ForProviderSplits(dropped, events, provider);
    ForProviderOld(dropped, provider, now - MINUTE);
    CountIgnoresOld(ForProvider(dropped, provider), ForProvider(events, provider), now - MINUTE);
  }

  lemma KeptAppend(events: seq<RateEvent>, e: RateEvent, t: int)
    ensures Kept(events + [e], t) == Kept(events, t) + if e.at < t then [] else [e]
  {
    assert (events + [e])[..|events|] == events;
  }

  /** On ordered events, keeping the young ones drops a prefix of old ones. */
  lemma {:induction false} KeptIsSuffix(h: seq<RateEvent>, t: int) returns (dropped: seq<RateEvent>)
    requires Ordered(h)
    ensures h == dropped + Kept(h, t)
    ensures forall i | 0 <= i < |dropped| :: dropped[i].at < t
  {
    if h == [] {
      dropped := [];
    } else {
      var shorter, last := h[..|h| - 1], h[|h| - 1];
      assert h == shorter + [last];
      KeptAppend(shorter, last, t);
      if last.at < t {
        NoneKept(shorter, t);
        dropped := h;
      } else {
        dropped := KeptIsSuffix(shorter, t);
        assert shorter + [last] == dropped + (Kept(shorter, t) + [last]);
      }
    }
  }

  lemma {:induction false} NoneKept(h: seq<RateEvent>, t: int)
    requires forall i | 0 <= i < |h| :: h[i].at < t
    ensures Kept(h, t) == []
  {
    if h != [] { NoneKept(h[..|h| - 1], t); }
  }

  lemma GrantKeepsTable(events: seq<RateEvent>, history: seq<RateEvent>, now: int, e: RateEvent)
    requires Past(history, now) && e.at == now && IsRecentHistory(events, history, now)
    ensures IsRecentHistory(Kept(events + [e], now - HOUR), history + [e], now)
  {
    var table, all := events + [e], history + [e];
    var cut := |history| - |events|;
    assert all[cut..] == table;
    var dropped := KeptIsSuffix(table, now - HOUR);
    forall i | 0 <= i < cut + |dropped| ensures all[i].at < now - HOUR {
      if i >= cut { assert all[i] == dropped[i - cut]; }
    }
  }

  lemma GrantBoundsRate(policy: Policy, h: seq<RateEvent>, now: int, e: RateEvent)
    requires Past(h, now) && e.at == now && RateBounded(policy, h) && !RateReached(policy, h, now, e.provider)
    ensures RateBounded(policy, h + [e])
  {
    SpacedExtends(h, policy.overall.requestsPerMinute, e);
    forall p ensures Spaced(ForProvider(h + [e], p), ProviderLimit(policy, p).requestsPerMinute) {
      ForProviderAppend(h, e, p);
      ForProviderOrdered(h, p);
      if p == e.provider { SpacedExtends(ForProvider(h, p), ProviderLimit(policy, p).requestsPerMinute, e); }
    }
  }

  predicate NewGrant(s: Limiter, policy: Policy, c: Call) {
    c.Acquire? && Step(s, policy, c).1.Granted? && c.request !in Pruned(s.permits, s.now)
  }

  /** Only a grant with a new permit is an event, and only below every rate limit: repeats, renewals,
      releases and refusals record none. */
  lemma OnlyNewGrantsAreEvents(s: Limiter, policy: Policy, c: Call)
    ensures var after := Step(s, policy, c).0;
            if NewGrant(s, policy, c) then
              var e := RateEvent(c.request, c.provider, s.now);
              && after.history == s.history + [e] && after.events == Kept(s.events + [e], s.now - HOUR)
              && after.now == s.now && !RateReached(policy, s.events, s.now, c.provider)
            else after.history == s.history && after.events == s.events && after.now >= s.now
  {
  }

  lemma StepBoundsRate(s: Limiter, policy: Policy, c: Call)
    requires RateValid(s, policy)
    ensures RateValid(Step(s, policy, c).0, policy)
  {
    OnlyNewGrantsAreEvents(s, policy, c);
    if NewGrant(s, policy, c) {
      var e := RateEvent(c.request, c.provider, s.now);
      GrantKeepsTable(s.events, s.history, s.now, e);
      RateIgnoresPruning(s.events, s.history, s.now, policy, c.provider);
      GrantBoundsRate(policy, s.history, s.now, e);
    }
  }

  lemma {:induction false} RateHolds(s: Limiter, policy: Policy, calls: seq<Call>)
    requires RateValid(s, policy)
    ensures RateValid(After(s, policy, calls), policy)
    decreases |calls|
  {
    if calls != [] {
      StepBoundsRate(s, policy, calls[0]);
      RateHolds(Step(s, policy, calls[0]).0, policy, calls[1..]);
    }
  }

  function Interval(from: int, n: nat): (r: set<int>)
    ensures |r| == n
    ensures forall i :: i in r <==> from <= i < from + n
  {
    if n == 0 then {} else Interval(from, n - 1) + {from + n - 1}
  }

  /** The events of one half-open minute, by position. */
  function MinuteFrom(h: seq<RateEvent>, start: int): set<int> {
    set i | 0 <= i < |h| && start <= h[i].at < start + MINUTE
  }

  lemma SpacedMinute(h: seq<RateEvent>, limit: int, start: int)
    requires Ordered(h) && Spaced(h, limit) && limit > 0
    ensures |MinuteFrom(h, start)| <= limit
  {
    var window := MinuteFrom(h, start);
    if window != {} {
      var first := Least(window);
      assert first + limit < |h| ==> h[first + limit].at - h[first].at >= MINUTE;
      assert forall i | i in window :: i in Interval(first, limit);
      SubsetSize(window, Interval(first, limit));
    }
  }

  /** The events of one provider in one half-open minute, by position among the first `n`. */
  function MinuteFor(h: seq<RateEvent>, n: nat, provider: string, start: int): set<int>
    requires n <= |h|
  {
    set i | 0 <= i < n && h[i].provider == provider && start <= h[i].at < start + MINUTE
  }

  lemma MinuteForGrows(h: seq<RateEvent>, m: nat, provider: string, start: int)
    requires m < |h|
    ensures |MinuteFor(h, m + 1, provider, start)| == |MinuteFor(h, m, provider, start)| +
              if h[m].provider == provider && start <= h[m].at < start + MINUTE then 1 else 0
  {
    var before := MinuteFor(h, m, provider, start);
    assert MinuteFor(h, m + 1, provider, start) ==
      if h[m].provider == provider && start <= h[m].at < start + MINUTE then before + {m} else before;
  }

  lemma {:induction false} MinuteForSize(h: seq<RateEvent>, n: nat, provider: string, start: int)
    requires n <= |h|
    ensures |MinuteFor(h, n, provider, start)| == |MinuteFrom(ForProvider(h[..n], provider), start)|
  {
    if n > 0 {
      var m, own := n - 1, ForProvider(h[..n - 1], provider);
      MinuteForSize(h, m, provider, start);
      MinuteForGrows(h, m, provider, start);
      assert h[..n] == h[..m] + [h[m]];
      ForProviderAppend(h[..m], h[m], provider);
      MinuteAppend(own, h[m], start);
      assert own + [] == own;
    }
  }

  lemma MinuteAppend(h: seq<RateEvent>, e: RateEvent, start: int)
    ensures |MinuteFrom(h + [e], start)| == |MinuteFrom(h, start)| + if start <= e.at < start + MINUTE then 1 else 0
  {
    var before := MinuteFrom(h, start);
    assert MinuteFrom(h + [e], start) == if start <= e.at < start + MINUTE then before + {|h|} else before;
  }

  /** Over the full history of any run of calls, every half-open minute holds at most the configured
      number of new grants, overall and per provider. */
  lemma RateBound(policy: Policy, calls: seq<Call>, provider: string, start: int)
    ensures var h := After(EMPTY, policy, calls).history;
            && (policy.overall.requestsPerMinute > 0 ==> |MinuteFrom(h, start)| <= policy.overall.requestsPerMinute)
            && (ProviderLimit(policy, provider).requestsPerMinute > 0 ==>
                  |MinuteFor(h, |h|, provider, start)| <= ProviderLimit(policy, provider).requestsPerMinute)
  {
    EmptyIsValid(policy);
    RateHolds(EMPTY, policy, calls);
    var h := After(EMPTY, policy, calls).history;
    if policy.overall.requestsPerMinute > 0 { SpacedMinute(h, policy.overall.requestsPerMinute, start); }
    if ProviderLimit(policy, provider).requestsPerMinute > 0 {
      ForProviderOrdered(h, provider);
      SpacedMinute(ForProvider(h, provider), ProviderLimit(policy, provider).requestsPerMinute, start);
      MinuteForSize(h, |h|, provider, start);
      assert h[..|h|] == h;
    }
  }

  // ---- What pruning can change ----

  /** While an event is younger than an hour, its request still has its permit row. */
  predicate EventHasPermit(permits: map<string, Permit>, e: RateEvent, now: int) {
    e.at < now - HOUR || (e.request in permits && permits[e.request].updated >= e.at)
  }

  predicate EventsHavePermits(permits: map<string, Permit>, events: seq<RateEvent>, now: int) {
    forall i | 0 <= i < |events| :: EventHasPermit(permits, events[i], now)
  }

  lemma {:induction false} KeptHavePermits(permits: map<string, Permit>, events: seq<RateEvent>, now: int, t: int)
    requires EventsHavePermits(permits, events, now)
    ensures EventsHavePermits(permits, Kept(events, t), now)
  {
    if events != [] { KeptHavePermits(permits, events[..|events| - 1], now, t); }
  }

  /** A later table keeps the rows events rely on: rows are only refreshed, or pruned an hour after. */
  lemma PermitsOutliveEvents(permits: map<string, Permit>, events: seq<RateEvent>, now: int,
                             after: map<string, Permit>, now': int)
    requires EventsHavePermits(permits, events, now) && now <= now'
    requires forall r | r in permits ::
               || (r in after && after[r].updated >= permits[r].updated)
               || (r in after && after[r].updated >= now)
               || permits[r].updated < now - HOUR
    requires forall i | 0 <= i < |events| :: events[i].at <= now
    ensures EventsHavePermits(after, events, now')
  {
    forall i | 0 <= i < |events| ensures EventHasPermit(after, events[i], now') {
      assert EventHasPermit(permits, events[i], now);
    }
  }

  ghost predicate LimiterValid(s: Limiter, policy: Policy) {
    RateValid(s, policy) && EventsHavePermits(s.permits, s.events, s.now)
  }

  lemma StepKeepsEventPermits(s: Limiter, policy: Policy, c: Call)
    requires LimiterValid(s, policy)
    ensures var after := Step(s, policy, c).0;
            EventsHavePermits(after.permits, after.events, after.now)
  {
    var after := Step(s, policy, c).0;
    OnlyNewGrantsAreEvents(s, policy, c);
    assert forall i | 0 <= i < |s.events| :: s.events[i].at <= s.now by {
      var cut := |s.history| - |s.events|;
      assert forall i | 0 <= i < |s.events| :: s.events[i] == s.history[cut + i];
    }
    PermitsOutliveEvents(s.permits, s.events, s.now, after.permits, after.now);
    if NewGrant(s, policy, c) {
      var e := RateEvent(c.request, c.provider, s.now);
      assert EventHasPermit(after.permits, e, s.now);
      KeptHavePermits(after.permits, s.events + [e], s.now, s.now - HOUR);
    }
  }

  lemma {:induction false} LimiterHolds(s: Limiter, policy: Policy, calls: seq<Call>)
    requires LimiterValid(s, policy)
    ensures LimiterValid(After(s, policy, calls), policy)
    decreases |calls|
  {
    if calls != [] {
      StepBoundsRate(s, policy, calls[0]);
      StepKeepsEventPermits(s, policy, calls[0]);
      LimiterHolds(Step(s, policy, calls[0]).0, policy, calls[1..]);
    }
  }

  // ---- What an acquire of a new permit meets ----

  predicate RowGone(permits: map<string, Permit>, request: string, now: int) {
    request !in permits || Stale(permits[request], now)
  }

  /** The guards before the insertion, over the tables as they are and the history nobody prunes: the run collects
      and is registered for the provider, the request has no permit row worth keeping, and no limit is reached. */
  predicate Eligible(s: Limiter, policy: Policy, view: RunView, request: string, provider: string) {
    && view == Present(true, provider)
    && RowGone(s.permits, request, s.now)
    && !ConcurrencyReached(policy, s.permits, s.now, provider)
    && !RateReached(policy, s.history, s.now, provider)
  }

  lemma LimitsIgnorePruning(policy: Policy, permits: map<string, Permit>, now: int, provider: string)
    ensures ConcurrencyReached(policy, Pruned(permits, now), now, provider) ==
            ConcurrencyReached(policy, permits, now, provider)
  {
    PruningKeepsActive(permits, now, provider);
  }

  lemma AcquireVerdict(s: Limiter, policy: Policy, run: string, view: RunView, request: string, provider: string)
    requires RateReached(policy, s.events, s.now, provider) == RateReached(policy, s.history, s.now, provider)
    ensures
      var reply := AcquirePermit(s, policy, run, view, request, provider).1;
      var eligible := Eligible(s, policy, view, request, provider);
      && (reply == Refused(DuplicateEvent) <==> eligible && Recorded(s.events, request))
      && (reply.Granted? && RowGone(s.permits, request, s.now) <==> eligible && !Recorded(s.events, request))
  {
    LimitsIgnorePruning(policy, s.permits, s.now, provider);
    assert request in Pruned(s.permits, s.now) <==> !RowGone(s.permits, request, s.now);
  }

  lemma EmptyIsValid(policy: Policy)
    ensures LimiterValid(EMPTY, policy)
  {
    assert forall p :: ForProvider([], p) == [];
  }

  lemma ReachableVerdict(
    policy: Policy, calls: seq<Call>, run: string, view: RunView, request: string, provider: string)
    ensures
      var s := After(EMPTY, policy, calls);
      var reply := AcquirePermit(s, policy, run, view, request, provider).1;
      var eligible := Eligible(s, policy, view, request, provider);
      && (reply == Refused(DuplicateEvent) <==> eligible && Recorded(s.events, request))
      && (reply.Granted? && RowGone(s.permits, request, s.now) <==> eligible && !Recorded(s.events, request))
  {
    var s := After(EMPTY, policy, calls);
    EmptyIsValid(policy);
    LimiterHolds(EMPTY, policy, calls);
    RateIgnoresPruning(s.events, s.history, s.now, policy, provider);
    AcquireVerdict(s, policy, run, view, request, provider);
  }

  /** In every reachable state a request gets a new permit exactly when it passes the guards and the table holds
      no event of it. */
  lemma GrantedExactlyWhen(
    policy: Policy, calls: seq<Call>, run: string, view: RunView, request: string, provider: string)
    ensures
      var s := After(EMPTY, policy, calls);
      NewGrant(s, policy, Acquire(run, view, request, provider)) <==>
        Eligible(s, policy, view, request, provider) && !Recorded(s.events, request)
  {
    var s := After(EMPTY, policy, calls);
    ReachableVerdict(policy, calls, run, view, request, provider);
    assert request in Pruned(s.permits, s.now) <==> !RowGone(s.permits, request, s.now);
  }

  /** An event of the request that is over an hour old and still in the table. */
  predicate StaleEventOf(events: seq<RateEvent>, request: string, now: int) {
    exists i :: 0 <= i < |events| && events[i].request == request && events[i].at < now - HOUR
  }

  lemma GoneMeansStale(permits: map<string, Permit>, events: seq<RateEvent>, request: string, now: int)
    requires EventsHavePermits(permits, events, now) && RowGone(permits, request, now)
    ensures forall i | 0 <= i < |events| && events[i].request == request :: events[i].at < now - HOUR
    ensures Recorded(events, request) <==> StaleEventOf(events, request, now)
  {
    forall i | 0 <= i < |events| && events[i].request == request ensures events[i].at < now - HOUR {
      assert EventHasPermit(permits, events[i], now);
    }
  }

  /** In every reachable state, under every policy, a request is refused by the key of the event table exactly when
      it passes every guard and the table still holds an event of it over an hour old. */
  lemma BlockedExactlyWhen(
    policy: Policy, calls: seq<Call>, run: string, view: RunView, request: string, provider: string)
    ensures
      var s := After(EMPTY, policy, calls);
      Step(s, policy, Acquire(run, view, request, provider)).1 == Refused(DuplicateEvent) <==>
        Eligible(s, policy, view, request, provider) && StaleEventOf(s.events, request, s.now)
  {
    var s := After(EMPTY, policy, calls);
    ReachableVerdict(policy, calls, run, view, request, provider);
    EmptyIsValid(policy);
    LimiterHolds(EMPTY, policy, calls);
    if RowGone(s.permits, request, s.now) { GoneMeansStale(s.permits, s.events, request, s.now); }
  }

  lemma {:induction false} KeptDropsStale(events: seq<RateEvent>, request: string, t: int)
    requires forall i | 0 <= i < |events| && events[i].request == request :: events[i].at < t
    ensures !Recorded(Kept(events, t), request)
  {
    if events != [] { KeptDropsStale(events[..|events| - 1], request, t); }
  }

  /** In every reachable state, under every policy, a new grant to any other request removes every event that blocks
      a request without a permit row. */
  lemma GrantUnblocks(policy: Policy, calls: seq<Call>, c: Call, request: string)
    requires
      var s := After(EMPTY, policy, calls);
      NewGrant(s, policy, c) && c.request != request && RowGone(s.permits, request, s.now)
    ensures !Recorded(Step(After(EMPTY, policy, calls), policy, c).0.events, request)
  {
    var s := After(EMPTY, policy, calls);
    EmptyIsValid(policy);
    LimiterHolds(EMPTY, policy, calls);
    OnlyNewGrantsAreEvents(s, policy, c);
    GoneMeansStale(s.permits, s.events, request, s.now);
    KeptDropsStale(s.events + [RateEvent(c.request, c.provider, s.now)], request, s.now - HOUR);
  }

  // ---- When pruning shows ----

  lemma SuffixRecorded(events: seq<RateEvent>, history: seq<RateEvent>, now: int, request: string)
    requires IsRecentHistory(events, history, now) && Recorded(events, request)
    ensures Recorded(history, request)
  {
    var i :| 0 <= i < |events| && events[i].request == request;
    assert history[|history| - |events| + i].request == request;
  }

  /** An acquire looks at the events through the rate and the key only. */
  lemma SameReplyExactlyWhen(
    s: Limiter, policy: Policy, run: string, view: RunView, request: string, provider: string, history: seq<RateEvent>)
    requires RateReached(policy, s.events, s.now, provider) == RateReached(policy, history, s.now, provider)
    requires Recorded(s.events, request) ==> Recorded(history, request)
    ensures
      var onHistory := AcquirePermit(s.(events := history), policy, run, view, request, provider).1;
      var onTable := AcquirePermit(s, policy, run, view, request, provider).1;
      onHistory != onTable <==>
        onTable.Granted? && request !in Pruned(s.permits, s.now) && Recorded(history, request)
  {
  }

  predicate Freed(s: Limiter, policy: Policy, view: RunView, request: string, provider: string) {
    && Eligible(s, policy, view, request, provider)
    && Recorded(s.history, request) && !Recorded(s.events, request)
  }

  lemma PruningShowsAt(s: Limiter, policy: Policy, run: string, view: RunView, request: string, provider: string)
    requires RateValid(s, policy)
    ensures
      var onHistory := AcquirePermit(s.(events := s.history), policy, run, view, request, provider).1;
      var onTable := AcquirePermit(s, policy, run, view, request, provider).1;
      onHistory != onTable <==> Freed(s, policy, view, request, provider)
  {
    RateIgnoresPruning(s.events, s.history, s.now, policy, provider);
    if Recorded(s.events, request) { SuffixRecorded(s.events, s.history, s.now, request); }
    SameReplyExactlyWhen(s, policy, run, view, request, provider, s.history);
    AcquireVerdict(s, policy, run, view, request, provider);
    assert request in Pruned(s.permits, s.now) <==> !RowGone(s.permits, request, s.now);
  }

  /** Dropping old events is visible in exactly one way: it frees the key of a request that passes every guard, whose
      event is in the history and no longer in the table. */
  lemma PruningShowsExactlyWhen(
    policy: Policy, calls: seq<Call>, run: string, view: RunView, request: string, provider: string)
    ensures
      var s, call := After(EMPTY, policy, calls), Acquire(run, view, request, provider);
      Step(s.(events := s.history), policy, call).1 != Step(s, policy, call).1 <==>
        Freed(s, policy, view, request, provider)
  {
    EmptyIsValid(policy);
    RateHolds(EMPTY, policy, calls);
    PruningShowsAt(After(EMPTY, policy, calls), policy, run, view, request, provider);
  }

  // ---- A run in which an old event blocks its own request ----

  const NO_LIMIT := Limit(0, 0)

  lemma UnlimitedAcquire(s: Limiter, lease: nat, run: string, request: string, provider: string)
    requires request !in Pruned(s.permits, s.now)
    ensures var policy := Policy(NO_LIMIT, map[], lease);
            var (after, reply) := AcquirePermit(s, policy, run, Present(true, provider), request, provider);
            && (reply == Refused(DuplicateEvent) <==> Recorded(s.events, request))
            && (!Recorded(s.events, request) ==>
                  && reply.Granted? && after.now == s.now
                  && after.permits == Pruned(s.permits, s.now)[
                       request := Permit(s.issued, run, provider, s.issued, s.now + lease, None, s.now)]
                  && after.events == Kept(s.events + [RateEvent(request, provider, s.now)], s.now - HOUR))
  {
  }

  /** A table whose only event is the stale one of a lapsed request. */
  predicate LapsedLongAgo(s: Limiter, request: string) {
    && |s.events| == 1 && s.events[0].request == request && s.events[0].at < s.now - HOUR
    && s.permits.Keys == {request} && Stale(s.permits[request], s.now)
  }

  /** A table with one lapsed permit: its request is refused by its own old event until a grant to another request
      drops that event. */
  lemma StaleEventBlocksRegrant(s: Limiter, lease: nat, run: string, request: string, other: string, provider: string)
    requires LapsedLongAgo(s, request) && request != other
    ensures var policy, view := Policy(NO_LIMIT, map[], lease), Present(true, provider);
            var cleared := AcquirePermit(s, policy, run, view, other, provider).0;
            && AcquirePermit(s, policy, run, view, request, provider).1 == Refused(DuplicateEvent)
            && AcquirePermit(cleared, policy, run, view, request, provider).1.Granted?
  {
    UnlimitedAcquire(s, lease, run, request, provider);
    ClearedByOther(s, lease, run, request, other, provider);
    var cleared := AcquirePermit(s, Policy(NO_LIMIT, map[], lease), run, Present(true, provider), other, provider).0;
    UnlimitedAcquire(cleared, lease, run, request, provider);
  }

  lemma ClearedByOther(s: Limiter, lease: nat, run: string, request: string, other: string, provider: string)
    requires LapsedLongAgo(s, request) && request != other
    ensures var policy := Policy(NO_LIMIT, map[], lease);
            var cleared := AcquirePermit(s, policy, run, Present(true, provider), other, provider).0;
            !Recorded(cleared.events, request) && request !in Pruned(cleared.permits, cleared.now)
  {
    var e := RateEvent(other, provider, s.now);
    UnlimitedAcquire(s, lease, run, other, provider);
    KeptAppend(s.events, e, s.now - HOUR);
    NoneKept(s.events, s.now - HOUR);
    assert [] + [e] == [e];
  }

  /** Such a state is one grant and an hour of silence away. */
  lemma StaleEventArises(lease: nat, run: string, request: string, provider: string)
    ensures var policy := Policy(NO_LIMIT, map[], lease);
            var granted := Step(EMPTY, policy, Acquire(run, Present(true, provider), request, provider)).0;
            var s := Step(granted, policy, Advance(HOUR + lease + 1)).0;
            LapsedLongAgo(s, request)
  {
    UnlimitedAcquire(EMPTY, lease, run, request, provider);
    KeptAppend([], RateEvent(request, provider, 0), -HOUR);
  }
}
