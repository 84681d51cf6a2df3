/** What each permit transaction does, in terms of the rows and events alone. */
module PermitEffects {
  import opened Collections
  import opened Permits

  // ---- The counts behind the limits ----

  function Since(events: seq<RateEvent>, t: int, n: nat): set<int>
    requires n <= |events|
  {
    set i | 0 <= i < n && events[i].at > t
  }

  function SinceFor(events: seq<RateEvent>, t: int, provider: string, n: nat): set<int>
    requires n <= |events|
  {
    set i | 0 <= i < n && events[i].at > t && events[i].provider == provider
  }

  lemma {:induction false} CountsSince(events: seq<RateEvent>, t: int, n: nat)
    requires n <= |events|
    ensures CountSince(events[..n], t) == |Since(events, t, n)|
  {
    if n > 0 {
      var m, last := n - 1, events[n - 1];
      CountsSince(events, t, m);
      assert events[..n] == events[..m] + [last];
      CountAppend(events[..m], last, t);
      var all := Since(events, t, m);
      assert Since(events, t, n) == if last.at > t then all + {m} else all;
    }
  }

  lemma SinceForGrows(events: seq<RateEvent>, t: int, provider: string, m: nat)
    requires m < |events|
    ensures |SinceFor(events, t, provider, m + 1)| ==
            |SinceFor(events, t, provider, m)| + if events[m].at > t && events[m].provider == provider then 1 else 0
  {
    var own := SinceFor(events, t, provider, m);
    assert SinceFor(events, t, provider, m + 1) ==
      if events[m].at > t && events[m].provider == provider then own + {m} else own;
  }

  lemma CountForGrows(events: seq<RateEvent>, t: int, provider: string, m: nat)
    requires m < |events|
    ensures CountSince(ForProvider(events[..m + 1], provider), t) ==
            CountSince(ForProvider(events[..m], provider), t)
            + if events[m].at > t && events[m].provider == provider then 1 else 0
  {
    assert events[..m + 1] == events[..m] + [events[m]];
    ForProviderAppend(events[..m], events[m], provider);
    CountAppend(ForProvider(events[..m], provider), events[m], t);
  }

  lemma {:induction false} CountsSinceFor(events: seq<RateEvent>, t: int, provider: string, n: nat)
    requires n <= |events|
    ensures CountSince(ForProvider(events[..n], provider), t) == |SinceFor(events, t, provider, n)|
  {
    if n > 0 {
      CountsSinceFor(events, t, provider, n - 1);
      SinceForGrows(events, t, provider, n - 1);
      CountForGrows(events, t, provider, n - 1);
    }
  }

  lemma CountAppend(events: seq<RateEvent>, e: RateEvent, t: int)
    ensures CountSince(events + [e], t) == CountSince(events, t) + if e.at > t then 1 else 0
    ensures CountSince(events + [], t) == CountSince(events, t)
  {
    assert (events + [e])[..|events|] == events;
    assert events + [] == events;
  }

  predicate Exhausted(limit: int, used: nat) { limit > 0 && used >= limit }

  function LimitOf(policy: Policy, provider: string): Limit {
    if provider in policy.providers then policy.providers[provider] else Limit(0, 0)
  }

  /** As many permits are unreleased and unexpired as one of the two limits allows. */
  predicate NoCapacity(policy: Policy, permits: map<string, Permit>, now: int, provider: string) {
    || Exhausted(policy.overall.maxConcurrency,
                 |set r | r in permits && permits[r].released == None && permits[r].expires > now|)
    || Exhausted(LimitOf(policy, provider).maxConcurrency,
                 |set r | r in permits && permits[r].released == None && permits[r].expires > now &&
                          permits[r].provider == provider|)
  }

  /** As many permits were newly granted in the last minute as one of the two limits allows. */
  predicate NoRate(policy: Policy, history: seq<RateEvent>, now: int, provider: string) {
    || Exhausted(policy.overall.requestsPerMinute,
                 |set i | 0 <= i < |history| && history[i].at > now - 60_000_000|)
    || Exhausted(LimitOf(policy, provider).requestsPerMinute,
                 |set i | 0 <= i < |history| && history[i].at > now - 60_000_000 && history[i].provider == provider|)
  }

  lemma CapacityMeans(policy: Policy, permits: map<string, Permit>, now: int, provider: string)
    ensures ConcurrencyReached(policy, permits, now, provider) == NoCapacity(policy, permits, now, provider)
  {
    assert ActiveRequests(permits, now) ==
      set r | r in permits && permits[r].released == None && permits[r].expires > now;
    assert ActiveFor(permits, now, provider) ==
      set r | r in permits && permits[r].released == None && permits[r].expires > now &&
              permits[r].provider == provider;
  }

  lemma RateMeans(policy: Policy, history: seq<RateEvent>, now: int, provider: string)
    ensures RateReached(policy, history, now, provider) == NoRate(policy, history, now, provider)
  {
    var t, n := now - MINUTE, |history|;
    CountsSince(history, t, n);
    CountsSinceFor(history, t, provider, n);
    assert history[..n] == history;
    assert Since(history, t, n) == set i | 0 <= i < n && history[i].at > now - 60_000_000;
    assert SinceFor(history, t, provider, n) ==
      set i | 0 <= i < n && history[i].at > now - 60_000_000 && history[i].provider == provider;
  }

  // ---- Acquire ----

  /** A row nobody needs any more: untouched for an hour, and released or run out. */
  predicate Forgotten(p: Permit, now: int) {
    p.updated < now - 3_600_000_000 && (p.released != None || p.expires <= now)
  }

  /** The rows after an acquire that took effect: the one of the request, and every other that is not forgotten. */
  ghost predicate KeepsOthers(before: map<string, Permit>, after: map<string, Permit>, request: string, now: int) {
    forall r | r != request ::
      && (r in after <==> r in before && !Forgotten(before[r], now))
      && (r in after ==> after[r] == before[r])
  }

  lemma PrunedKeepsOthers(permits: map<string, Permit>, now: int, request: string, row: Permit)
    ensures KeepsOthers(permits, Pruned(permits, now)[request := row], request, now)
    ensures request in Pruned(permits, now) <==> request in permits && !Forgotten(permits[request], now)
  {
  }

  /** A request that already has a permit keeps it under a new token and for another lease, if it is neither released
      nor run out, and has otherwise lost it; no limit is looked at and no event recorded. */
  lemma RepeatEffect(s: Limiter, policy: Policy, run: string, request: string, provider: string)
    requires request in s.permits && !Forgotten(s.permits[request], s.now)
    ensures
      var row := s.permits[request];
      var (after, reply) := Step(s, policy, Acquire(run, Present(true, provider), request, provider));
      if row.released == None && row.expires > s.now then
        && reply == Granted(row.id, s.issued, s.now + policy.lease)
        && request in after.permits
        && after.permits[request] == row.(token := s.issued, expires := s.now + policy.lease, updated := s.now)
        && KeepsOthers(s.permits, after.permits, request, s.now)
        && after == s.(permits := after.permits, issued := s.issued + 1)
      else (after, reply) == (s, Refused(LeaseLost))
  {
    var row := s.permits[request];
    var refreshed := row.(token := s.issued, expires := s.now + policy.lease, updated := s.now);
    PrunedKeepsOthers(s.permits, s.now, request, refreshed);
  }

  /** A request without a permit is refused while a limit is exhausted, and then while its own event is in the table;
      otherwise it gets a new permit, and the event is recorded. */
  lemma FirstEffect(s: Limiter, policy: Policy, run: string, request: string, provider: string)
    requires LimiterValid(s, policy) && (request in s.permits ==> Forgotten(s.permits[request], s.now))
    ensures
      var (after, reply) := Step(s, policy, Acquire(run, Present(true, provider), request, provider));
      if NoCapacity(policy, s.permits, s.now, provider) then (after, reply) == (s, Busy(250))
      else if NoRate(policy, s.history, s.now, provider) then (after, reply) == (s, Busy(1000))
      else if Recorded(s.events, request) then (after, reply) == (s, Refused(DuplicateEvent))
      else
        && reply == Granted(s.issued, s.issued, s.now + policy.lease)
        && request in after.permits
        && after.permits[request] == Permit(s.issued, run, provider, s.issued, s.now + policy.lease, None, s.now)
        && KeepsOthers(s.permits, after.permits, request, s.now)
        && after.history == s.history + [RateEvent(request, provider, s.now)]
        && after == Limiter(after.permits, after.events, s.now, s.issued + 1, after.history)
  {
    LimitsIgnorePruning(policy, s.permits, s.now, provider);
    CapacityMeans(policy, s.permits, s.now, provider);
    RateIgnoresPruning(s.events, s.history, s.now, policy, provider);
    RateMeans(policy, s.history, s.now, provider);
    PrunedKeepsOthers(
      s.permits, s.now, request, Permit(s.issued, run, provider, s.issued, s.now + policy.lease, None, s.now));
  }

  lemma {:induction false} KeptAreYoung(events: seq<RateEvent>, t: int)
    ensures forall i | 0 <= i < |Kept(events, t)| :: Kept(events, t)[i].at >= t
  {
    if events != [] { KeptAreYoung(events[..|events| - 1], t); }
  }

  /** With a new permit the table of events becomes the history of the last hour. */
  lemma PrunedTable(s: Limiter, policy: Policy, run: string, request: string, provider: string)
    requires LimiterValid(s, policy) && (request in s.permits ==> Forgotten(s.permits[request], s.now))
    ensures
      var (after, reply) := Step(s, policy, Acquire(run, Present(true, provider), request, provider));
      reply.Granted? ==>
        && IsRecentHistory(after.events, after.history, s.now)
        && forall i | 0 <= i < |after.events| :: after.events[i].at >= s.now - 3_600_000_000
  {
    var c := Acquire(run, Present(true, provider), request, provider);
    OnlyNewGrantsAreEvents(s, policy, c);
    if NewGrant(s, policy, c) {
      YoungTable(s.events, s.history, s.now, RateEvent(request, provider, s.now));
    }
  }

  lemma YoungTable(events: seq<RateEvent>, history: seq<RateEvent>, now: int, e: RateEvent)
    requires Past(history, now) && e.at == now && IsRecentHistory(events, history, now)
    ensures
      var table := Kept(events + [e], now - HOUR);
      && IsRecentHistory(table, history + [e], now)
      && forall i | 0 <= i < |table| :: table[i].at >= now - 3_600_000_000
  {
    GrantKeepsTable(events, history, now, e);
    KeptAreYoung(events + [e], now - HOUR);
  }

  /** A request for a run that is unknown, settled or registered for another provider is refused for that reason. */
  lemma RefusedEffect(s: Limiter, policy: Policy, run: string, view: RunView, request: string, provider: string)
    requires view != Present(true, provider)
    ensures Step(s, policy, Acquire(run, view, request, provider)) ==
            (s, Refused(if view.Missing? then NotFound else if !view.collecting then LeaseLost else Invalid))
  {
  }

  /** So every acquire in every reachable state. */
  lemma AcquireEffect(policy: Policy, calls: seq<Call>, run: string, request: string, provider: string)
    ensures
      var s := After(EMPTY, policy, calls);
      var (after, reply) := Step(s, policy, Acquire(run, Present(true, provider), request, provider));
      var kept := request in s.permits && !Forgotten(s.permits[request], s.now);
      && (reply == Busy(250) <==> !kept && NoCapacity(policy, s.permits, s.now, provider))
      && (reply == Busy(1000) <==>
            !kept && !NoCapacity(policy, s.permits, s.now, provider) && NoRate(policy, s.history, s.now, provider))
      && (reply.Granted? ==> reply.expires == s.now + policy.lease && reply.token == s.issued)
      && (reply.Granted? <==>
            if kept then s.permits[request].released == None && s.permits[request].expires > s.now
            else
              && !NoCapacity(policy, s.permits, s.now, provider) && !NoRate(policy, s.history, s.now, provider)
              && !Recorded(s.events, request))
  {
    var s := After(EMPTY, policy, calls);
    EmptyIsValid(policy);
    LimiterHolds(EMPTY, policy, calls);
    if request in s.permits && !Forgotten(s.permits[request], s.now) {
      RepeatEffect(s, policy, run, request, provider);
    } else {
      FirstEffect(s, policy, run, request, provider);
    }
  }

  // ---- Renew and release ----

  predicate IdsDistinct(permits: map<string, Permit>) {
    forall q, r | q in permits && r in permits && permits[q].id == permits[r].id :: q == r
  }

  lemma IdsStayDistinct(s: Limiter, policy: Policy, c: Call)
    requires IdsIssued(s) && IdsDistinct(s.permits)
    ensures IdsDistinct(Step(s, policy, c).0.permits)
  {
  }

  lemma {:induction false} IdsDistinctAfter(s: Limiter, policy: Policy, calls: seq<Call>)
    requires IdsIssued(s) && IdsDistinct(s.permits)
    ensures IdsIssued(After(s, policy, calls)) && IdsDistinct(After(s, policy, calls).permits)
    decreases |calls|
  {
    if calls != [] {
      IdsStayIssued(s, policy, calls[0]);
      IdsStayDistinct(s, policy, calls[0]);
      IdsDistinctAfter(Step(s, policy, calls[0]).0, policy, calls[1..]);
    }
  }

  /** The row a lease names. */
  predicate Named(permits: map<string, Permit>, r: string, run: string, id: nat, token: nat) {
    r in permits && permits[r].run == run && permits[r].id == id && permits[r].token == token
  }

  lemma OneNamed(permits: map<string, Permit>, r: string, run: string, id: nat, token: nat)
    requires IdsDistinct(permits) && Named(permits, r, run, id, token)
    ensures forall q | q in permits :: permits[q].id == id ==> q == r
  {
  }

  /** Releasing takes effect exactly when a row has the run, id and token: that row is released, at the time it was
      first released, and no longer active; nothing else changes. */
  lemma ReleaseEffect(policy: Policy, calls: seq<Call>, run: string, id: nat, token: nat)
    ensures
      var s := After(EMPTY, policy, calls);
      var (after, reply) := Step(s, policy, Release(run, id, token));
      && (reply == Released <==> exists r :: Named(s.permits, r, run, id, token))
      && (reply != Released ==> (after, reply) == (s, Refused(LeaseLost)))
      && (reply == Released ==> !IdActive(after, id))
      && forall r | Named(s.permits, r, run, id, token) ::
           var row := s.permits[r];
           after == s.(permits := s.permits[
             r := row.(released := if row.released == None then Some(s.now) else row.released, updated := s.now)])
  {
    var s := After(EMPTY, policy, calls);
    IdsDistinctAfter(EMPTY, policy, calls);
    if r :| Named(s.permits, r, run, id, token) {
      ReleaseNamed(s, r, run, id, token);
    } else {
      assert forall r | r in s.permits :: !Named(s.permits, r, run, id, token);
    }
  }

  lemma ReleaseNamed(s: Limiter, r: string, run: string, id: nat, token: nat)
    requires IdsDistinct(s.permits) && Named(s.permits, r, run, id, token)
    ensures
      var (after, reply) := ReleasePermit(s, run, id, token);
      var row := s.permits[r];
      && reply == Released && !IdActive(after, id)
      && after == s.(permits := s.permits[
           r := row.(released := if row.released == None then Some(s.now) else row.released, updated := s.now)])
  {
    OneNamed(s.permits, r, run, id, token);
    assert Matches(s.permits[r], run, id, token);
    var row := s.permits[r];
    var rows := s.permits[
      r := row.(released := if row.released == None then Some(s.now) else row.released, updated := s.now)];
    assert ReleasePermit(s, run, id, token).0.permits == rows;
  }

  /** Renewing takes effect exactly when such a row is neither released nor run out: its lease ends one duration from
      now; nothing else changes. */
  lemma RenewEffect(policy: Policy, calls: seq<Call>, run: string, id: nat, token: nat)
    ensures
      var s := After(EMPTY, policy, calls);
      var (after, reply) := Step(s, policy, Renew(run, id, token));
      && (reply == Extended(s.now + policy.lease) <==>
            exists r :: Named(s.permits, r, run, id, token)
                        && s.permits[r].released == None && s.permits[r].expires > s.now)
      && (!reply.Extended? ==> (after, reply) == (s, Refused(LeaseLost)))
      && forall r | Named(s.permits, r, run, id, token) ::
           var row := s.permits[r];
           reply.Extended? ==>
             after == s.(permits := s.permits[r := row.(expires := s.now + policy.lease, updated := s.now)])
  {
    var s := After(EMPTY, policy, calls);
    IdsDistinctAfter(EMPTY, policy, calls);
    if r :| Named(s.permits, r, run, id, token) {
      RenewNamed(s, policy, r, run, id, token);
    } else {
      assert forall r | r in s.permits :: !Named(s.permits, r, run, id, token);
    }
  }

  lemma RenewNamed(s: Limiter, policy: Policy, r: string, run: string, id: nat, token: nat)
    requires IdsDistinct(s.permits) && Named(s.permits, r, run, id, token)
    ensures
      var (after, reply) := RenewPermit(s, policy, run, id, token);
      var row := s.permits[r];
      if row.released == None && row.expires > s.now then
        && reply == Extended(s.now + policy.lease)
        && after == s.(permits := s.permits[r := row.(expires := s.now + policy.lease, updated := s.now)])
      else (after, reply) == (s, Refused(LeaseLost))
  {
    OneNamed(s.permits, r, run, id, token);
    var row := s.permits[r];
    if row.released == None && row.expires > s.now {
      assert Matches(s.permits[r], run, id, token) && Active(s.permits[r], s.now);
      var rows := s.permits[r := row.(expires := s.now + policy.lease, updated := s.now)];
      assert RenewPermit(s, policy, run, id, token).0.permits == rows;
    }
  }

  /** Releasing an active permit frees one place, overall and for its provider. */
  lemma ReleaseFreesCapacity(s: Limiter, r: string, run: string, id: nat, token: nat)
    requires IdsDistinct(s.permits) && Named(s.permits, r, run, id, token)
    requires s.permits[r].released == None && s.permits[r].expires > s.now
    ensures
      var after := ReleasePermit(s, run, id, token).0;
      && ActiveRequests(after.permits, s.now) == ActiveRequests(s.permits, s.now) - {r}
      && |ActiveRequests(after.permits, s.now)| == |ActiveRequests(s.permits, s.now)| - 1
      && |ActiveFor(after.permits, s.now, s.permits[r].provider)| ==
         |ActiveFor(s.permits, s.now, s.permits[r].provider)| - 1
  {
    ReleaseNamed(s, r, run, id, token);
    var after := ReleasePermit(s, run, id, token).0;
    assert r in ActiveRequests(s.permits, s.now);
    assert ActiveRequests(after.permits, s.now) == ActiveRequests(s.permits, s.now) - {r};
    var provider := s.permits[r].provider;
    assert r in ActiveFor(s.permits, s.now, provider);
    assert ActiveFor(after.permits, s.now, provider) == ActiveFor(s.permits, s.now, provider) - {r};
  }
}
