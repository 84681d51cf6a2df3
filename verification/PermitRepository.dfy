/** The permit and rate-event tables as the repository updates them, one transaction per method. */
module PermitRepository {
  import opened Collections
  import opened Permits

  class PermitTables {
    var permits: map<string, Permit>
    var events: seq<RateEvent>
    var now: int
    var issued: nat
    ghost var history: seq<RateEvent>

    ghost function State(): Limiter
      reads this
    {
      Limiter(permits, events, now, issued, history)
    }

    constructor ()
      ensures State() == EMPTY
    {
      permits, events, now, issued, history := map[], [], 0, 0, [];
    }

    method AcquirePermit(policy: Policy, run: string, view: RunView, request: string, provider: string)
      returns (reply: Reply)
      modifies this
      ensures (State(), reply) == Step(old(State()), policy, Acquire(run, view, request, provider))
    {
      var table := map r | r in permits && !Stale(permits[r], now) :: permits[r];
      assert table == Pruned(permits, now);
      if view.Missing? { return Refused(NotFound); }
      if !view.collecting { return Refused(LeaseLost); }
      if view.provider != provider { return Refused(Invalid); }
      if request in table {
        reply := RefreshPermit(policy, table, request);
        return;
      }
      var limit := ProviderLimit(policy, provider);
      var globalActive, providerActive := |ActiveRequests(table, now)|, |ActiveFor(table, now, provider)|;
      if (policy.overall.maxConcurrency > 0 && globalActive >= policy.overall.maxConcurrency)
         || (limit.maxConcurrency > 0 && providerActive >= limit.maxConcurrency)
      {
        return Busy(250);
      }
      var globalRate := CountSince(events, now - MINUTE);
      var providerRate := CountSince(ForProvider(events, provider), now - MINUTE);
      if (policy.overall.requestsPerMinute > 0 && globalRate >= policy.overall.requestsPerMinute)
         || (limit.requestsPerMinute > 0 && providerRate >= limit.requestsPerMinute)
      {
        return Busy(1000);
      }
      reply := InsertPermit(policy, table, run, request, provider);
    }

    /** A repeated request keeps its permit under a new token, unless it was given up or ran out. */
    method RefreshPermit(policy: Policy, table: map<string, Permit>, request: string) returns (reply: Reply)
      requires request in table
      modifies this`permits, this`issued
      ensures (State(), reply) == Permits.RefreshPermit(old(State()), policy, table, request)
    {
      var existing, expires := table[request], now + policy.lease;
      if existing.released.Some? || existing.expires <= now { return Refused(LeaseLost); }
      permits := table[request := existing.(token := issued, expires := expires, updated := now)];
      reply := Granted(existing.id, issued, expires);
      issued := issued + 1;
    }

    /** The permit row, the rate event under the request's key, and the pruning of old events. */
    method InsertPermit(policy: Policy, table: map<string, Permit>, run: string, request: string, provider: string)
      returns (reply: Reply)
      modifies this
      ensures (State(), reply) == Permits.InsertPermit(old(State()), policy, table, run, request, provider)
    {
      if Recorded(events, request) { return Refused(DuplicateEvent); }
      var event, expires := RateEvent(request, provider, now), now + policy.lease;
      permits := table[request := Permit(issued, run, provider, issued, expires, None, now)];
      events := Kept(events + [event], now - HOUR);
      history := history + [event];
      reply := Granted(issued, issued, expires);
      issued := issued + 1;
    }

    method RenewPermit(policy: Policy, run: string, id: nat, token: nat) returns (reply: Reply)
      modifies this`permits
      ensures (State(), reply) == Step(old(State()), policy, Renew(run, id, token))
    {
      var expires := now + policy.lease;
      var hit := set r | r in permits && Matches(permits[r], run, id, token) && Active(permits[r], now);
      if hit == {} {
        assert forall r | r in permits && Matches(permits[r], run, id, token) :: Active(permits[r], now) ==> r in hit;
        return Refused(LeaseLost);
      }
      ghost var r := Pick(hit);
      permits := map r | r in permits ::
        if r in hit then permits[r].(expires := expires, updated := now) else permits[r];
      assert permits == Permits.RenewPermit(old(State()), policy, run, id, token).0.permits;
      return Extended(expires);
    }

    method ReleasePermit(policy: Policy, run: string, id: nat, token: nat) returns (reply: Reply)
      modifies this`permits
      ensures (State(), reply) == Step(old(State()), policy, Release(run, id, token))
    {
      var hit := set r | r in permits && Matches(permits[r], run, id, token);
      if hit == {} {
        assert forall r | r in permits :: Matches(permits[r], run, id, token) ==> r in hit;
        return Refused(LeaseLost);
      }
      ghost var r := Pick(hit);
      permits := map r | r in permits ::
        if r in hit
        then
          permits[r].(
            released := if permits[r].released.Some? then permits[r].released else Some(now), updated := now)
        else permits[r];
      assert permits == Permits.ReleasePermit(old(State()), run, id, token).0.permits;
      return Released;
    }
  }
}
