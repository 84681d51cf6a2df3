/** The case-level retry loop: whole executions repeated under an attempt limit, a backoff budget and a
    deadline. Times are seconds as reals; jitter draws are reals in [0, 1). */
module Retry {
  import opened Collections

  datatype Policy = Policy(
    maxAttempts: int, initialBackoffMs: int, maxBackoffMs: int, maxCumulativeMs: int, jitter: real,
    allowAmbiguous: bool)
  {
    /** What the configuration loader guarantees. */
    predicate Legal() {
      maxAttempts >= 1 && 0 <= initialBackoffMs <= maxBackoffMs && maxCumulativeMs >= 0 && 0.0 <= jitter <= 1.0
    }
  }

  datatype Category = Provider | OtherCategory(name: string)

  datatype Code = CircuitOpen | TimedOut | OtherCode(name: string)

  datatype Error = Error(category: Category, code: Code, safe: bool, ambiguous: bool)

  const TIMEOUT := Error(Provider, TimedOut, false, true)

  datatype Decision =
    | NotNeeded
    | RetrySafe
    | RetryAmbiguous
    | NotRetryable
    | AmbiguousBlocked
    | HalfOpenNoRetry
    | AttemptLimit
    | BackoffBudget
    | TimeBudget
  {
    predicate Retries() { RetrySafe? || RetryAmbiguous? }
  }

  datatype Attempt = Attempt(number: nat, error: Option<Error>, decision: Decision, backoffMs: int)

  function BackoffOf(a: Attempt): int { a.backoffMs }

  // ---- Backoff ----

  function Doubling(n: nat): (r: nat)
    ensures r >= 1
  {
    if n == 0 then 1 else 2 * Doubling(n - 1)
  }

  /** The nearest integer, with exact halves going to the even neighbour. */
  function RoundHalfEven(x: real): (r: int)
    ensures -0.5 <= r as real - x <= 0.5
    ensures x - x.Floor as real == 0.5 ==> r % 2 == 0
  {
    var below := x.Floor;
    var part := x - below as real;
    if part < 0.5 || (part == 0.5 && below % 2 == 0) then below else below + 1
  }

  function Capped(p: Policy, failedAttempt: nat): int
    requires failedAttempt >= 1
  {
    var exponential := p.initialBackoffMs * Doubling(failedAttempt - 1);
    if exponential <= p.maxBackoffMs then exponential else p.maxBackoffMs
  }

  function RoundedWithin(x: real, maximum: int): int {
    var rounded := RoundHalfEven(x);
    var floored := if rounded > 0 then rounded else 0;
    if floored < maximum then floored else maximum
  }

  /** Jitter scales a delay by a factor in [1 - ratio, 1 + ratio). */
  function Scaled(capped: real, jitter: real, draw: real): real {
    capped * (1.0 - jitter + 2.0 * jitter * draw)
  }

  function WithJitter(p: Policy, capped: int, draw: real): int {
    if p.jitter == 0.0 then capped else RoundedWithin(Scaled(capped as real, p.jitter, draw), p.maxBackoffMs)
  }

  /** `retry_backoff_ms`, with the hash-derived draw as a parameter. */
  function Backoff(p: Policy, failedAttempt: nat, draw: real): int
    requires failedAttempt >= 1
  {
    WithJitter(p, Capped(p, failedAttempt), draw)
  }

  lemma WithinWhole(x: real, part: real)
    requires x >= 0.0 && 0.0 <= part <= 1.0
    ensures 0.0 <= x * part <= x
  {
    assert x * (1.0 - part) >= 0.0;
  }

  lemma ScaledSpread(capped: real, jitter: real, draw: real)
    requires capped >= 0.0 && jitter >= 0.0 && 0.0 <= draw < 1.0
    ensures 0.0 <= capped * jitter
    ensures capped - capped * jitter <= Scaled(capped, jitter, draw) <= capped + capped * jitter
  {
    var swing := capped * jitter;
    assert swing >= 0.0;
    assert Scaled(capped, jitter, draw) == capped - swing + 2.0 * (swing * draw);
    assert 0.0 <= swing * draw <= swing by { WithinWhole(swing, draw); }
  }

  lemma RoundingStaysNear(x: real, capped: int, maximum: int, swing: real)
    requires 0 <= capped <= maximum && swing >= 0.0 && capped as real - swing <= x <= capped as real + swing
    ensures 0 <= RoundedWithin(x, maximum) <= maximum
    ensures capped as real - swing - 0.5 <= RoundedWithin(x, maximum) as real <= capped as real + swing + 0.5
  {
  }

  lemma WithJitterBounds(p: Policy, capped: int, draw: real)
    requires p.Legal() && 0 <= capped <= p.maxBackoffMs && 0.0 <= draw < 1.0
    ensures 0 <= WithJitter(p, capped, draw) <= p.maxBackoffMs
    ensures
      var swing := capped as real * p.jitter;
      capped as real - swing - 0.5 <= WithJitter(p, capped, draw) as real <= capped as real + swing + 0.5
  {
    ScaledSpread(capped as real, p.jitter, draw);
    RoundingStaysNear(Scaled(capped as real, p.jitter, draw), capped, p.maxBackoffMs, capped as real * p.jitter);
  }

  lemma CappedRange(p: Policy, failedAttempt: nat)
    requires p.Legal() && failedAttempt >= 1
    ensures 0 <= Capped(p, failedAttempt) <= p.maxBackoffMs
  {
    assert p.initialBackoffMs * Doubling(failedAttempt - 1) >= 0;
  }

  /** A backoff is never negative, never above the maximum, and within the jitter ratio and half a millisecond
      of the capped exponential. */
  lemma BackoffBounds(p: Policy, failedAttempt: nat, draw: real)
    requires p.Legal() && failedAttempt >= 1 && 0.0 <= draw < 1.0
    ensures 0 <= Backoff(p, failedAttempt, draw) <= p.maxBackoffMs
    ensures
      var capped := Capped(p, failedAttempt) as real;
      var swing := capped * p.jitter;
      capped - swing - 0.5 <= Backoff(p, failedAttempt, draw) as real <= capped + swing + 0.5
  {
    CappedRange(p, failedAttempt);
    WithJitterBounds(p, Capped(p, failedAttempt), draw);
  }

  /** The capped exponential never shrinks from one failed attempt to the next. */
  lemma CappedGrows(p: Policy, failedAttempt: nat)
    requires p.Legal() && failedAttempt >= 1
    ensures Capped(p, failedAttempt) <= Capped(p, failedAttempt + 1)
  {
    var before, after := Doubling(failedAttempt - 1), Doubling(failedAttempt);
    assert p.initialBackoffMs * (after - before) >= 0;
  }

  /** The capped exponential starts at the initial backoff and doubles up to the maximum. */
  lemma CappedDoubles(p: Policy, failedAttempt: nat)
    requires p.Legal() && failedAttempt >= 1
    ensures Capped(p, 1) == p.initialBackoffMs
    ensures
      var doubled := 2 * Capped(p, failedAttempt);
      Capped(p, failedAttempt + 1) == if doubled <= p.maxBackoffMs then doubled else p.maxBackoffMs
  {
    var before := Doubling(failedAttempt - 1);
    assert Doubling(failedAttempt) == 2 * before;
    assert p.initialBackoffMs * (2 * before) == 2 * (p.initialBackoffMs * before);
    assert p.initialBackoffMs * before >= 0;
  }

  /** Without jitter so does the backoff. */
  lemma PlainBackoff(p: Policy, failedAttempt: nat, draw: real)
    requires p.Legal() && failedAttempt >= 1 && p.jitter == 0.0
    ensures Backoff(p, 1, draw) == p.initialBackoffMs
    ensures
      var doubled := 2 * Backoff(p, failedAttempt, draw);
      Backoff(p, failedAttempt + 1, draw) == if doubled <= p.maxBackoffMs then doubled else p.maxBackoffMs
  {
    CappedDoubles(p, failedAttempt);
  }

  /** A delay spread evenly around `capped`: by the whole jitter ratio below it for a draw of 0, and above it for 1. */
  function Spread(capped: real, jitter: real, draw: real): real {
    capped + capped * jitter * (2.0 * draw - 1.0)
  }

  function Target(p: Policy, capped: int, draw: real): real {
    var spread := Spread(capped as real, p.jitter, draw);
    if spread <= p.maxBackoffMs as real then spread else p.maxBackoffMs as real
  }

  /** With jitter the backoff is the capped exponential scaled by the draw, to the nearest millisecond; the middle draw
      leaves it as it is. */
  lemma JitteredBackoff(p: Policy, failedAttempt: nat, draw: real)
    requires p.Legal() && failedAttempt >= 1 && 0.0 <= draw < 1.0
    ensures
      var target := Target(p, Capped(p, failedAttempt), draw);
      target - 0.5 <= Backoff(p, failedAttempt, draw) as real <= target + 0.5
    ensures draw == 0.5 ==> Backoff(p, failedAttempt, draw) == Capped(p, failedAttempt)
  {
    CappedRange(p, failedAttempt);
    JitterNear(p, Capped(p, failedAttempt), draw);
  }

  lemma JitterNear(p: Policy, capped: int, draw: real)
    requires p.Legal() && 0 <= capped <= p.maxBackoffMs && 0.0 <= draw < 1.0
    ensures Target(p, capped, draw) - 0.5 <= WithJitter(p, capped, draw) as real <= Target(p, capped, draw) + 0.5
    ensures draw == 0.5 ==> WithJitter(p, capped, draw) == capped
  {
    SpreadFacts(capped as real, p.jitter, draw);
    NearestWithin(Scaled(capped as real, p.jitter, draw), p.maxBackoffMs);
  }

  lemma SpreadFacts(capped: real, jitter: real, draw: real)
    requires capped >= 0.0 && 0.0 <= jitter <= 1.0 && 0.0 <= draw < 1.0
    ensures 0.0 <= Scaled(capped, jitter, draw) == Spread(capped, jitter, draw)
    ensures jitter == 0.0 || draw == 0.5 ==> Scaled(capped, jitter, draw) == capped
  {
    ScaledSpread(capped, jitter, draw);
    WithinWhole(capped, jitter);
    var swing := capped * jitter;
    assert Scaled(capped, jitter, draw) == capped - swing + 2.0 * (swing * draw);
    assert swing * (2.0 * draw - 1.0) == 2.0 * (swing * draw) - swing;
  }

  lemma NearestWithin(x: real, maximum: int)
    requires x >= 0.0 && maximum >= 0
    ensures
      var target := if x <= maximum as real then x else maximum as real;
      target - 0.5 <= RoundedWithin(x, maximum) as real <= target + 0.5
    ensures x == x.Floor as real && x <= maximum as real ==> RoundedWithin(x, maximum) as real == x
  {
  }

  // ---- One decision ----

  /** `retry_eligibility`. */
  function Eligibility(error: Error, p: Policy): Decision {
    if error.category != Provider || error.code == CircuitOpen then NotRetryable
    else if error.safe then RetrySafe
    else if error.ambiguous then (if p.allowAmbiguous then RetryAmbiguous else AmbiguousBlocked)
    else NotRetryable
  }

  /** What is decided about failed attempt `number`, whose backoff would be `delayMs`, with the backoff to wait
      before the next attempt. */
  function Decide(
    policy: Option<Policy>, probe: bool, number: nat, error: Error, cumulativeMs: int, delayMs: int, remaining: real)
    : (Decision, int)
    requires number >= 1
  {
    if policy.None? then (NotRetryable, 0)
    else
      var p := policy.value;
      var eligible := Eligibility(error, p);
      if !eligible.Retries() then (eligible, 0)
      else if probe then (HalfOpenNoRetry, 0)
      else if number >= p.maxAttempts then (AttemptLimit, 0)
      else
        if cumulativeMs + delayMs > p.maxCumulativeMs then (BackoffBudget, 0)
        else if delayMs as real / 1000.0 >= remaining then (TimeBudget, 0)
        else (eligible, delayMs)
  }

  // ---- The loop against an arbitrary environment ----

  /** Where a stop request catches attempt n, if it does. */
  datatype Halt = Runs | StopsBefore | StopsDuring | StopsInBackoff

  /** Everything outside the loop: how attempt n ends and how long it takes, by how much its backoff
      overruns, its jitter draw, and when the stop event is set. */
  datatype Environment = Environment(
    outcome: nat -> Option<Error>, duration: nat -> real, overrun: nat -> real, draw: nat -> real,
    halt: nat -> Halt)
  {
    ghost predicate Legal() {
      forall n :: duration(n) >= 0.0 && overrun(n) >= 0.0 && 0.0 <= draw(n) < 1.0
    }
  }

  /** One permitted case; `waited` is the time between its start, from which the deadline counts, and its first
      attempt. */
  datatype Case = Case(policy: Option<Policy>, probe: bool, timeout: real, waited: real, env: Environment) {
    ghost predicate Legal() {
      env.Legal() && timeout > 0.0 && waited >= 0.0 && (policy.Some? ==> policy.value.Legal())
    }
  }

  /** The backoff that would follow failed attempt n. */
  function Delay(c: Case, n: nat): int
    requires n >= 1
  {
    if c.policy.Some? then Backoff(c.policy.value, n, c.env.draw(n)) else 0
  }

  /** When the attempt after `done` starts. */
  function Clock(c: Case, done: seq<Attempt>): real {
    if done == [] then c.waited
    else
      var n := |done|;
      Clock(c, done[..n - 1]) + c.env.duration(n) + done[n - 1].backoffMs as real / 1000.0 + c.env.overrun(n)
  }

  function Remaining(c: Case, at: real): real {
    if c.timeout - at > 0.0 then c.timeout - at else 0.0
  }

  /** The attempt that follows `done`; with no time left it times out without being sent. */
  function Next(c: Case, done: seq<Attempt>): Attempt {
    var n := |done| + 1;
    var start := Clock(c, done);
    var error := if Remaining(c, start) <= 0.0 then Some(TIMEOUT) else c.env.outcome(n);
    match error
    case None => Attempt(n, None, NotNeeded, 0)
    case Some(e) =>
      var (decision, backoff) :=
        Decide(c.policy, c.probe, n, e, Sum(done, BackoffOf), Delay(c, n), Remaining(c, start + c.env.duration(n)));
      Attempt(n, error, decision, backoff)
  }

  /** A list of attempts as the loop makes them: each follows from those before it. */
  predicate Follows(c: Case, attempts: seq<Attempt>) {
    attempts == [] ||
    var done := attempts[..|attempts| - 1];
    attempts[|attempts| - 1] == Next(c, done) && Follows(c, done)
  }

  lemma {:induction false} FollowsAt(c: Case, attempts: seq<Attempt>, i: nat)
    requires Follows(c, attempts) && i < |attempts|
    ensures attempts[i] == Next(c, attempts[..i])
  {
    if i < |attempts| - 1 {
      var done := attempts[..|attempts| - 1];
      FollowsAt(c, done, i);
      assert done[..i] == attempts[..i];
    }
  }

  predicate AllRetry(attempts: seq<Attempt>) {
    forall i | 0 <= i < |attempts| :: attempts[i].decision.Retries()
  }

  /** No stop request caught any of the first attempts. */
  predicate Uninterrupted(env: Environment, attempts: int) {
    attempts >= 1 ==> env.halt(attempts) == Runs && Uninterrupted(env, attempts - 1)
  }

  method ChooseRetry(
    policy: Option<Policy>, probe: bool, number: nat, error: Error, cumulativeMs: int, delayMs: int, remaining: real)
    returns (decision: Decision, backoffMs: int)
    requires number >= 1
    ensures (decision, backoffMs) == Decide(policy, probe, number, error, cumulativeMs, delayMs, remaining)
    ensures decision.Retries() ==> policy.Some? && number < policy.value.maxAttempts
  {
    backoffMs := 0;
    decision := if policy.Some? then Eligibility(error, policy.value) else NotRetryable;
    if decision.Retries() && probe { decision := HalfOpenNoRetry; }
    if decision.Retries() && number >= policy.value.maxAttempts { decision := AttemptLimit; }
    if decision.Retries() {
      backoffMs := delayMs;
      if cumulativeMs + backoffMs > policy.value.maxCumulativeMs {
        decision, backoffMs := BackoffBudget, 0;
      } else if backoffMs as real / 1000.0 >= remaining {
        decision, backoffMs := TimeBudget, 0;
      }
    }
  }

  /** One turn of the loop, up to the point where the attempt is appended. */
  method MakeAttempt(c: Case, ghost done: seq<Attempt>, number: nat, cumulativeMs: int, started: real)
    returns (attempt: Attempt)
    requires number == |done| + 1 && cumulativeMs == Sum(done, BackoffOf) && started == Clock(c, done)
    ensures attempt == Next(c, done)
    ensures attempt.decision.Retries() ==> c.policy.Some? && number < c.policy.value.maxAttempts
  {
    var remaining := Remaining(c, started);
    var error := if remaining <= 0.0 then Some(TIMEOUT) else c.env.outcome(number);
    var decision, backoffMs := NotNeeded, 0;
    if error.Some? {
      decision, backoffMs := ChooseRetry(
        c.policy, c.probe, number, error.value, cumulativeMs, Delay(c, number),
        Remaining(c, started + c.env.duration(number)));
    }
    attempt := Attempt(number, error, decision, backoffMs);
  }

  lemma FollowsOn(c: Case, attempts: seq<Attempt>, a: Attempt)
    requires Follows(c, attempts) && a == Next(c, attempts)
    ensures Follows(c, attempts + [a])
    ensures Clock(c, attempts + [a]) ==
      Clock(c, attempts) + c.env.duration(a.number) + a.backoffMs as real / 1000.0 + c.env.overrun(a.number)
    ensures Sum(attempts + [a], BackoffOf) == Sum(attempts, BackoffOf) + a.backoffMs
  {
    var longer := attempts + [a];
    assert longer[..|attempts|] == attempts;
    SumAppend(attempts, [a], BackoffOf);
  }

  /** The retry loop of `_execute_permitted_case`, up to the outcome it reports to the breaker. */
  method ExecuteAttempts(c: Case) returns (attempts: seq<Attempt>, cancelled: bool)
    ensures Follows(c, attempts)
    ensures !cancelled ==> |attempts| >= 1 && !attempts[|attempts| - 1].decision.Retries()
    ensures if cancelled then AllRetry(attempts) else AllRetry(attempts[..|attempts| - 1])
    ensures Uninterrupted(c.env, |attempts| - 1)
    ensures |attempts| >= 1 ==> c.env.halt(|attempts|) in {Runs, StopsInBackoff}
    ensures cancelled ==>
      || c.env.halt(|attempts| + 1) in {StopsBefore, StopsDuring}
      || (|attempts| >= 1 && c.env.halt(|attempts|) == StopsInBackoff)
  {
    attempts := [];
    var number, cumulativeMs, clock := 1, 0, c.waited;
    while true
      invariant number == |attempts| + 1
      invariant cumulativeMs == Sum(attempts, BackoffOf) && clock == Clock(c, attempts)
      invariant Follows(c, attempts) && AllRetry(attempts)
      invariant Uninterrupted(c.env, |attempts|)
      invariant attempts != [] ==> c.policy.Some? && |attempts| < c.policy.value.maxAttempts
      decreases (if c.policy.Some? then c.policy.value.maxAttempts else 0) - |attempts|
    {
      if c.env.halt(number) == StopsBefore { return attempts, true; }
      if c.env.halt(number) == StopsDuring { return attempts, true; }
      var attempt := MakeAttempt(c, attempts, number, cumulativeMs, clock);
      ghost var done := attempts;
      FollowsOn(c, done, attempt);
      attempts := attempts + [attempt];
      assert attempts[..|attempts| - 1] == done;
      if !attempt.decision.Retries() { return attempts, false; }
      if c.env.halt(number) == StopsInBackoff { return attempts, true; }
      clock := clock + c.env.duration(number) + attempt.backoffMs as real / 1000.0 + c.env.overrun(number);
      cumulativeMs := cumulativeMs + attempt.backoffMs;
      number := number + 1;
    }
  }

  // ---- What the loop keeps ----

  /** When a failure is retried, stated without the order in which the loop asks. */
  predicate RetryAllowed(c: Case, done: seq<Attempt>, error: Error) {
    var n := |done| + 1;
    && c.policy.Some?
    && error.category == Provider && error.code != CircuitOpen
    && (error.safe || (error.ambiguous && c.policy.value.allowAmbiguous))
    && !c.probe
    && n < c.policy.value.maxAttempts
    && var backoff := Backoff(c.policy.value, n, c.env.draw(n));
       && Sum(done, BackoffOf) + backoff <= c.policy.value.maxCumulativeMs
       && Clock(c, done) + c.env.duration(n) + backoff as real / 1000.0 < c.timeout
  }

  lemma DecideExactlyWhen(
    p: Policy, probe: bool, number: nat, error: Error, cumulativeMs: int, delayMs: int, remaining: real)
    requires number >= 1
    ensures
      var (decision, backoff) := Decide(Some(p), probe, number, error, cumulativeMs, delayMs, remaining);
      && backoff == (if decision.Retries() then delayMs else 0)
      && (decision.Retries() <==>
            && error.category == Provider && error.code != CircuitOpen
            && (error.safe || (error.ambiguous && p.allowAmbiguous))
            && !probe && number < p.maxAttempts
            && cumulativeMs + delayMs <= p.maxCumulativeMs
            && delayMs as real / 1000.0 < remaining)
  {
  }

  lemma RetriedExactlyWhen(c: Case, attempts: seq<Attempt>, i: nat)
    requires c.Legal() && Follows(c, attempts) && i < |attempts|
    ensures attempts[i].number == i + 1
    ensures attempts[i].decision.Retries() <==>
      attempts[i].error.Some? && RetryAllowed(c, attempts[..i], attempts[i].error.value)
    ensures attempts[i].backoffMs ==
      if attempts[i].decision.Retries() then Backoff(c.policy.value, i + 1, c.env.draw(i + 1)) else 0
  {
    FollowsAt(c, attempts, i);
    var done, a := attempts[..i], attempts[i];
    if c.policy.Some? && a.error.Some? {
      BackoffBounds(c.policy.value, i + 1, c.env.draw(i + 1));
      DecideExactlyWhen(
        c.policy.value, c.probe, i + 1, a.error.value, Sum(done, BackoffOf), Delay(c, i + 1),
        Remaining(c, Clock(c, done) + c.env.duration(i + 1)));
    }
  }

  /** Whether the failure may be retried at all, limits aside. */
  predicate MayRetry(policy: Option<Policy>, error: Error) {
    && policy.Some? && error.category == Provider && error.code != CircuitOpen
    && (error.safe || (error.ambiguous && policy.value.allowAmbiguous))
  }

  /** Every decision by what it means: which failure may be retried, and for one that may, the first of the probe,
      the attempts, the backoff budget and the deadline to forbid it. */
  lemma DecisionMeans(
    policy: Option<Policy>, probe: bool, number: nat, error: Error, cumulativeMs: int, delayMs: int, remaining: real)
    requires number >= 1
    ensures
      var decision := Decide(policy, probe, number, error, cumulativeMs, delayMs, remaining).0;
      var may := MayRetry(policy, error);
      var blocked :=
        && policy.Some? && error.category == Provider && error.code != CircuitOpen
        && error.ambiguous && !error.safe && !policy.value.allowAmbiguous;
      && (decision == AmbiguousBlocked <==> blocked)
      && (decision == NotRetryable <==> !may && !blocked)
      && (decision == HalfOpenNoRetry <==> may && probe)
      && (decision == AttemptLimit <==> may && !probe && number >= policy.value.maxAttempts)
      && var open := may && !probe && number < policy.value.maxAttempts;
         && (decision == BackoffBudget <==> open && cumulativeMs + delayMs > policy.value.maxCumulativeMs)
         && (decision == TimeBudget <==>
               && open && cumulativeMs + delayMs <= policy.value.maxCumulativeMs
               && delayMs as real / 1000.0 >= remaining)
         && (decision == RetrySafe ==> open && error.safe)
         && (decision == RetryAmbiguous ==> open && !error.safe)
         && decision != NotNeeded
  {
  }

  /** The sum of `f(1)` to `f(n)`. */
  function UpTo(f: nat -> real, n: nat): real {
    if n == 0 then 0.0 else UpTo(f, n - 1) + f(n)
  }

  /** The clock counts the wait before the case, what every attempt took, every backoff and what it overran. */
  lemma {:induction false} ClockIsElapsed(c: Case, attempts: seq<Attempt>)
    ensures Clock(c, attempts) ==
      c.waited + UpTo(c.env.duration, |attempts|) + UpTo(c.env.overrun, |attempts|)
      + Sum(attempts, BackoffOf) as real / 1000.0
  {
    if attempts != [] {
      var n := |attempts| - 1;
      ClockIsElapsed(c, attempts[..n]);
      assert attempts[..n + 1] == attempts;
      SumPrefix(attempts, n, BackoffOf);
    }
  }

  /** What each attempt of a run ends in: what the environment says, unless the deadline has passed when it starts; then
      it is a timeout of which nobody knows what it did. */
  lemma AttemptErrors(c: Case, attempts: seq<Attempt>, i: nat)
    requires Follows(c, attempts) && i < |attempts|
    ensures attempts[i].error ==
      if Clock(c, attempts[..i]) < c.timeout then c.env.outcome(i + 1) else Some(Error(Provider, TimedOut, false, true))
    ensures attempts[i].decision == NotNeeded <==> attempts[i].error == None
  {
    FollowsAt(c, attempts, i);
  }

  lemma {:induction false} ClockCoversBackoffs(c: Case, attempts: seq<Attempt>)
    requires c.Legal()
    ensures c.waited + Sum(attempts, BackoffOf) as real / 1000.0 <= Clock(c, attempts)
  {
    if attempts != [] {
      var n := |attempts| - 1;
      ClockCoversBackoffs(c, attempts[..n]);
      assert attempts[..n + 1] == attempts;
      SumPrefix(attempts, n, BackoffOf);
    }
  }

  /** The backoff budget holds after every prefix of a run. */
  lemma {:induction false} BudgetAt(c: Case, attempts: seq<Attempt>, n: nat)
    requires c.Legal() && Follows(c, attempts) && n <= |attempts|
    ensures Sum(attempts[..n], BackoffOf) <= (if c.policy.Some? then c.policy.value.maxCumulativeMs else 0)
  {
    if n > 0 {
      BudgetAt(c, attempts, n - 1);
      SumPrefix(attempts, n - 1, BackoffOf);
      RetriedExactlyWhen(c, attempts, n - 1);
    }
  }

  /** A retry is scheduled only if all waiting up to it ends before the deadline. */
  lemma DeadlineAt(c: Case, attempts: seq<Attempt>, i: nat)
    requires c.Legal() && Follows(c, attempts) && i < |attempts| && attempts[i].decision.Retries()
    ensures c.waited + Sum(attempts[..i + 1], BackoffOf) as real / 1000.0 < c.timeout
  {
    RetriedExactlyWhen(c, attempts, i);
    ClockCoversBackoffs(c, attempts[..i]);
    SumPrefix(attempts, i, BackoffOf);
  }

  lemma DeadlineHolds(c: Case, attempts: seq<Attempt>)
    requires c.Legal() && Follows(c, attempts) && |attempts| >= 2 && AllRetry(attempts[..|attempts| - 1])
    ensures c.waited + Sum(attempts, BackoffOf) as real / 1000.0 < c.timeout
  {
    var last := |attempts| - 1;
    assert attempts[..last + 1] == attempts;
    if attempts[last].decision.Retries() {
      DeadlineAt(c, attempts, last);
    } else {
      assert attempts[..last][last - 1] == attempts[last - 1];
      DeadlineAt(c, attempts, last - 1);
      RetriedExactlyWhen(c, attempts, last);
      SumPrefix(attempts, last, BackoffOf);
      assert attempts[..last - 1 + 1] == attempts[..last];
    }
  }

  lemma EachBackoff(c: Case, attempts: seq<Attempt>, i: nat)
    requires c.Legal() && Follows(c, attempts) && i < |attempts|
    ensures attempts[i].number == i + 1
    ensures 0 <= attempts[i].backoffMs <= if c.policy.Some? then c.policy.value.maxBackoffMs else 0
  {
    RetriedExactlyWhen(c, attempts, i);
    if c.policy.Some? { BackoffBounds(c.policy.value, i + 1, c.env.draw(i + 1)); }
  }

  /** The budgets of a whole run of the loop: the number of attempts, each backoff, their sum, the deadline, and
      a probe's single attempt. */
  lemma RetryBudgets(c: Case, attempts: seq<Attempt>)
    requires c.Legal() && Follows(c, attempts) && |attempts| >= 1 && AllRetry(attempts[..|attempts| - 1])
    ensures forall i | 0 <= i < |attempts| :: attempts[i].number == i + 1
    ensures |attempts| <= (if c.policy.Some? then c.policy.value.maxAttempts else 1)
    ensures c.probe ==> |attempts| == 1
    ensures c.policy.Some? ==> Sum(attempts, BackoffOf) <= c.policy.value.maxCumulativeMs
    ensures c.policy.Some? ==>
      forall i | 0 <= i < |attempts| :: 0 <= attempts[i].backoffMs <= c.policy.value.maxBackoffMs
    ensures |attempts| >= 2 ==> c.waited + Sum(attempts, BackoffOf) as real / 1000.0 < c.timeout
  {
    forall i | 0 <= i < |attempts|
      ensures attempts[i].number == i + 1
      ensures c.policy.Some? ==> 0 <= attempts[i].backoffMs <= c.policy.value.maxBackoffMs
    {
      EachBackoff(c, attempts, i);
    }
    BudgetAt(c, attempts, |attempts|);
    assert attempts[..|attempts|] == attempts;
    if |attempts| >= 2 {
      assert attempts[..|attempts| - 1][|attempts| - 2] == attempts[|attempts| - 2];
      RetriedExactlyWhen(c, attempts, |attempts| - 2);
      DeadlineHolds(c, attempts);
    }
  }
}
