/** The worker's circuit breaker: one breaker shared by every in-flight case. */
module Circuit {
  import opened Collections

  /** A configured breaker: a positive threshold and a positive open duration. */
  datatype Settings = Settings(threshold: int, openDurationMs: int) {
    predicate Legal() {
      threshold >= 1 && openDurationMs >= 1
    }

    function Duration(): (seconds: real)
      ensures Legal() ==> seconds > 0.0
    {
      openDurationMs as real / 1000.0
    }
  }

  datatype Mode = Closed | Open | HalfOpen

  datatype Breaker = Breaker(mode: Mode, failures: nat, openUntil: real, probing: bool)

  datatype Grant = Ordinary | Probe | Rejected

  /** How a permitted case ended, as the breaker sees it: a success, a terminal failure in the
      provider category, or a failure in any other category. */
  datatype Outcome = Succeeded | ProviderFailed | OtherFailed

  datatype Signal = Opened | ClosedAgain

  const START := Breaker(Closed, 0, 0.0, false)

  /** `CircuitBreaker.acquire`; without settings every case is admitted. */
  function Acquire(settings: Option<Settings>, b: Breaker, now: real): (Breaker, Grant) {
    if settings.None? || b.mode == Closed then (b, Ordinary)
    else if b.mode == Open && now >= b.openUntil && !b.probing then (b.(mode := HalfOpen, probing := true), Probe)
    else (b, Rejected)
  }

  /** `CircuitBreaker.record_terminal`. */
  function Record(settings: Option<Settings>, b: Breaker, probe: bool, outcome: Outcome, now: real)
    : (Breaker, seq<Signal>)
  {
    if settings.None? then (b, [])
    else if probe then
      match outcome
      case Succeeded => (b.(mode := Closed, failures := 0, probing := false), [ClosedAgain])
      case ProviderFailed =>
        (b.(mode := Open, openUntil := now + settings.value.Duration(), probing := false), [Opened])
      case OtherFailed => (b.(mode := Open, openUntil := now, probing := false), [])
    else
      match outcome
      case Succeeded =>
        if b.mode == Closed then (b.(failures := 0), [])
        else (b.(mode := Closed, failures := 0, probing := false), [ClosedAgain])
      case OtherFailed => (b, [])
      case ProviderFailed =>
        var until := now + settings.value.Duration();
        match b.mode
        case Closed =>
          if b.failures + 1 >= settings.value.threshold
          then (b.(mode := Open, failures := b.failures + 1, openUntil := until), [Opened])
          else (b.(failures := b.failures + 1), [])
        case Open => (b.(openUntil := if b.openUntil >= until then b.openUntil else until), [])
        case HalfOpen => (b, [])
  }

  class CircuitBreaker {
    const settings: Option<Settings>
    var mode: Mode
    var failures: nat
    var openUntil: real
    var probing: bool

    ghost function State(): Breaker
      reads this
    {
      Breaker(mode, failures, openUntil, probing)
    }

    constructor (settings: Option<Settings>)
      ensures this.settings == settings
      ensures State() == START
    {
      this.settings := settings;
      mode, failures, openUntil, probing := Closed, 0, 0.0, false;
    }

    method AcquirePermit(now: real) returns (grant: Grant)
      modifies this
      ensures (State(), grant) == Acquire(settings, old(State()), now)
    {
      if settings.None? { return Ordinary; }
      if mode == Closed { return Ordinary; }
      if mode == Open && now >= openUntil && !probing {
        mode := HalfOpen;
        probing := true;
        return Probe;
      }
      return Rejected;
    }

    method RecordTerminal(probe: bool, outcome: Outcome, now: real) returns (signals: seq<Signal>)
      modifies this
      ensures (State(), signals) == Record(settings, old(State()), probe, outcome, now)
    {
      signals := [];
      if settings.None? { return; }
      var until := now + settings.value.Duration();
      if probe {
        probing := false;
        if outcome == Succeeded {
          mode := Closed;
          failures := 0;
          signals := [ClosedAgain];
        } else if outcome == ProviderFailed {
          mode := Open;
          openUntil := until;
          signals := [Opened];
        } else {
          mode := Open;
          openUntil := now;
        }
        return;
      }
      if outcome == Succeeded {
        failures := 0;
        if mode != Closed {
          mode := Closed;
          probing := false;
          signals := [ClosedAgain];
        }
        return;
      }
      if outcome != ProviderFailed { return; }
      if mode == Closed {
        failures := failures + 1;
        if failures >= settings.value.threshold {
          mode := Open;
          openUntil := until;
          signals := [Opened];
        }
      } else if mode == Open {
        if openUntil < until { openUntil := until; }
      }
    }
  }

  // ---- Every interleaving of the cases that share one breaker ----

  /** One recorded outcome and its time; `halfOpen` is whether the breaker was half-open when it was recorded. */
  datatype Fact = Fact(probe: bool, halfOpen: bool, outcome: Outcome, at: real)

  /** The breaker with the permits still in flight, the permits issued and every outcome recorded so far. A
      permit abandoned by cancellation stays in flight. */
  datatype World = World(
    breaker: Breaker, now: real,
    ordinary: nat, probes: nat,
    granted: nat, probesGranted: nat, entries: nat,
    history: seq<Fact>)

  datatype Event = Elapse(seconds: real) | Ask | Finish(probe: bool, outcome: Outcome)

  const FRESH := World(START, 0.0, 0, 0, 0, 0, 0, [])

  /** Time moves forward, and only a case that holds a permit can finish. */
  predicate Enabled(w: World, e: Event) {
    match e
    case Elapse(seconds) => seconds >= 0.0
    case Ask => true
    case Finish(probe, _) => if probe then w.probes > 0 else w.ordinary > 0
  }

  function Step(s: Settings, w: World, e: Event): World
    requires Enabled(w, e)
  {
    match e
    case Elapse(seconds) => w.(now := w.now + seconds)
    case Ask =>
      var (b, grant) := Acquire(Some(s), w.breaker, w.now);
      var entered := if w.breaker.mode != HalfOpen && b.mode == HalfOpen then 1 else 0;
      w.(breaker := b,
         ordinary := w.ordinary + if grant == Ordinary then 1 else 0,
         probes := w.probes + if grant == Probe then 1 else 0,
         granted := w.granted + if grant == Rejected then 0 else 1,
         probesGranted := w.probesGranted + if grant == Probe then 1 else 0,
         entries := w.entries + entered)
    case Finish(probe, outcome) =>
      var b := Record(Some(s), w.breaker, probe, outcome, w.now).0;
      var entered := if w.breaker.mode != HalfOpen && b.mode == HalfOpen then 1 else 0;
      w.(breaker := b,
         ordinary := if probe then w.ordinary else w.ordinary - 1,
         probes := if probe then w.probes - 1 else w.probes,
         entries := w.entries + entered,
         history := w.history + [Fact(probe, w.breaker.mode == HalfOpen, outcome, w.now)])
  }

  /** Whether every event of a run is enabled when it happens. */
  predicate Runs(s: Settings, w: World, trace: seq<Event>)
    decreases |trace|
  {
    trace == [] || (Enabled(w, trace[0]) && Runs(s, Step(s, w, trace[0]), trace[1..]))
  }

  function After(s: Settings, w: World, trace: seq<Event>): World
    requires Runs(s, w, trace)
    decreases |trace|
  {
    if trace == [] then w else After(s, Step(s, w, trace[0]), trace[1..])
  }

  // ---- What the history alone says ----

  /** Provider failures recorded since the last recorded success, from any permit in any mode. */
  function FailuresSinceSuccess(history: seq<Fact>): nat {
    if history == [] then 0
    else
      var last := history[|history| - 1];
      if last.outcome == Succeeded then 0
      else FailuresSinceSuccess(history[..|history| - 1]) + if last.outcome == ProviderFailed then 1 else 0
  }

  /** Whether a probe failed since the last recorded success. */
  predicate ProbeFailedSinceSuccess(history: seq<Fact>) {
    if history == [] then false
    else
      var last := history[|history| - 1];
      last.outcome != Succeeded && (last.probe || ProbeFailedSinceSuccess(history[..|history| - 1]))
  }

  /** An ordinary case that succeeds while a probe is out closes the circuit and orphans the probe. */
  function OrphaningSuccess(f: Fact): int {
    if !f.probe && f.halfOpen && f.outcome == Succeeded then 1 else 0
  }

  /** A probe recorded after the breaker stopped waiting for it. */
  function LateProbe(f: Fact): int {
    if f.probe && !f.halfOpen then 1 else 0
  }

  /** A failure that says how long the circuit stays open: a probe's, or an ordinary case's provider failure unless
      a probe is awaited. */
  predicate SetsWait(f: Fact) {
    f.outcome != Succeeded && (f.probe || (f.outcome == ProviderFailed && !f.halfOpen))
  }

  /** One duration after a provider failure, and at once after any other failure of a probe. */
  function WaitFrom(s: Settings, f: Fact): real {
    if f.outcome == ProviderFailed then f.at + s.Duration() else f.at
  }

  /** Whether the last failure that sets the wait came after the last success, and ends it at `until`. */
  predicate WaitsUntil(s: Settings, history: seq<Fact>, until: real) {
    history != [] &&
    var last := history[|history| - 1];
    && last.outcome != Succeeded
    && if SetsWait(last) then until == WaitFrom(s, last) else WaitsUntil(s, history[..|history| - 1], until)
  }

  // ---- The invariant ----

  predicate Valid(s: Settings, w: World) {
    && s.Legal()
    && (w.breaker.mode == HalfOpen <==> w.breaker.probing)
    && w.breaker.openUntil <= w.now + s.Duration()
    && w.now >= 0.0
    && (w.breaker.mode == Closed <==> ReadsClosed(s, w.history))
    && (w.breaker.mode == Closed ==> w.breaker.failures == FailuresSinceSuccess(w.history))
    && (w.breaker.mode != Closed ==> WaitsUntil(s, w.history, w.breaker.openUntil))
    && w.probesGranted == w.entries
    && w.probes == (if w.breaker.probing then 1 else 0) + Sum(w.history, OrphaningSuccess) - Sum(w.history, LateProbe)
  }

  /** The circuit as a reader of the history would draw it. */
  predicate ReadsClosed(s: Settings, history: seq<Fact>) {
    FailuresSinceSuccess(history) < s.threshold && !ProbeFailedSinceSuccess(history)
  }

  lemma StepKeeps(s: Settings, w: World, e: Event)
    requires Valid(s, w) && Enabled(w, e)
    ensures Valid(s, Step(s, w, e))
  {
    if e.Finish? {
      var fact := Fact(e.probe, w.breaker.mode == HalfOpen, e.outcome, w.now);
      var grown := w.history + [fact];
      assert grown[..|grown| - 1] == w.history;
      SumAppend(w.history, [fact], OrphaningSuccess);
      SumAppend(w.history, [fact], LateProbe);
    }
  }

  lemma {:induction false} RunKeeps(s: Settings, w: World, trace: seq<Event>)
    requires Valid(s, w) && Runs(s, w, trace)
    ensures Valid(s, After(s, w, trace))
    decreases |trace|
  {
    if trace != [] {
      StepKeeps(s, w, trace[0]);
      RunKeeps(s, Step(s, w, trace[0]), trace[1..]);
    }
  }

  /** In every reachable state: half-open is the probe flag; the circuit is closed exactly when the recorded
      outcomes say so, and then the counter is the provider failures since the last success and is below the
      threshold; half-open entries and probes issued match one to one; and the probes in flight are the awaited
      one plus those orphaned by a straggler's success and not yet recorded. */
  lemma BreakerInvariant(s: Settings, trace: seq<Event>)
    requires s.Legal() && Runs(s, FRESH, trace)
    ensures
      var w := After(s, FRESH, trace);
      && (w.breaker.mode == HalfOpen <==> w.breaker.probing)
      && (w.breaker.mode == Closed <==> ReadsClosed(s, w.history))
      && (w.breaker.mode == Closed ==> w.breaker.failures == FailuresSinceSuccess(w.history) < s.threshold)
      && w.probesGranted == w.entries
      && w.probes == (if w.breaker.probing then 1 else 0)
                     + Sum(w.history, OrphaningSuccess) - Sum(w.history, LateProbe)
  {
    RunKeeps(s, FRESH, trace);
  }

  /** Who is admitted in a reachable state, and that only admitting a probe enters half-open. */
  lemma AdmissionDiscipline(s: Settings, trace: seq<Event>, e: Event)
    requires s.Legal() && Runs(s, FRESH, trace) && Enabled(After(s, FRESH, trace), e)
    ensures
      var w := After(s, FRESH, trace);
      var grant := Acquire(Some(s), w.breaker, w.now).1;
      && (grant == Ordinary <==> ReadsClosed(s, w.history))
      && (grant == Probe <==> w.breaker.mode == Open && w.now >= w.breaker.openUntil)
      && (w.breaker.mode != HalfOpen && Step(s, w, e).breaker.mode == HalfOpen <==> e == Ask && grant == Probe)
  {
    RunKeeps(s, FRESH, trace);
  }

  /** When a closed circuit opens: at the threshold, or because an orphaned probe ends without success. */
  lemma OpensExactlyWhen(s: Settings, trace: seq<Event>, e: Event)
    requires s.Legal() && Runs(s, FRESH, trace) && Enabled(After(s, FRESH, trace), e)
    requires After(s, FRESH, trace).breaker.mode == Closed
    ensures
      var w := After(s, FRESH, trace);
      Step(s, w, e).breaker.mode == Open <==>
        || (e == Finish(false, ProviderFailed) && FailuresSinceSuccess(w.history) + 1 == s.threshold)
        || (e.Finish? && e.probe && e.outcome != Succeeded)
  {
    RunKeeps(s, FRESH, trace);
  }

  // ---- One probe at a time, and only failures open the circuit: exactly when no straggler succeeds ----

  predicate OneProbe(w: World) {
    w.probes == if w.breaker.mode == HalfOpen then 1 else 0
  }

  predicate AlwaysOneProbe(s: Settings, w: World, trace: seq<Event>)
    requires Runs(s, w, trace)
    decreases |trace|
  {
    OneProbe(w) && (trace != [] ==> AlwaysOneProbe(s, Step(s, w, trace[0]), trace[1..]))
  }

  function Orphanings(w: World): int {
    Sum(w.history, OrphaningSuccess)
  }

  lemma StepOrphanings(s: Settings, w: World, e: Event)
    requires Valid(s, w) && Enabled(w, e)
    ensures Orphanings(Step(s, w, e)) == Orphanings(w)
              + if e == Finish(false, Succeeded) && w.breaker.mode == HalfOpen then 1 else 0
  {
    if e.Finish? {
      SumAppend(w.history, [Fact(e.probe, w.breaker.mode == HalfOpen, e.outcome, w.now)], OrphaningSuccess);
    }
  }

  lemma {:induction false} OrphaningsGrow(s: Settings, w: World, trace: seq<Event>)
    requires Valid(s, w) && Runs(s, w, trace)
    ensures Orphanings(After(s, w, trace)) >= Orphanings(w)
    decreases |trace|
  {
    if trace != [] {
      StepKeeps(s, w, trace[0]);
      StepOrphanings(s, w, trace[0]);
      OrphaningsGrow(s, Step(s, w, trace[0]), trace[1..]);
    }
  }

  lemma {:induction false} OneProbeAlong(s: Settings, w: World, trace: seq<Event>)
    requires Valid(s, w) && Runs(s, w, trace) && OneProbe(w)
    ensures AlwaysOneProbe(s, w, trace) <==> Orphanings(After(s, w, trace)) == Orphanings(w)
    decreases |trace|
  {
    if trace != [] {
      var next := Step(s, w, trace[0]);
      StepKeeps(s, w, trace[0]);
      StepOrphanings(s, w, trace[0]);
      OrphaningsGrow(s, next, trace[1..]);
      if OneProbe(next) {
        OneProbeAlong(s, next, trace[1..]);
      }
    }
  }

  /** "Exactly one concurrent half-open probe" holds throughout a run if and only if no ordinary case succeeded
      while the breaker was half-open. */
  lemma SingleProbeExactlyWhen(s: Settings, trace: seq<Event>)
    requires s.Legal() && Runs(s, FRESH, trace)
    ensures AlwaysOneProbe(s, FRESH, trace) <==> Orphanings(After(s, FRESH, trace)) == 0
  {
    OneProbeAlong(s, FRESH, trace);
  }

  lemma {:induction false} ThresholdAlong(s: Settings, w: World, trace: seq<Event>)
    requires Valid(s, w) && Runs(s, w, trace) && Orphanings(After(s, w, trace)) == 0
    requires OneProbe(w) && (w.breaker.mode == Closed <==> FailuresSinceSuccess(w.history) < s.threshold)
    ensures
      var end := After(s, w, trace);
      end.breaker.mode == Closed <==> FailuresSinceSuccess(end.history) < s.threshold
    decreases |trace|
  {
    if trace != [] {
      var e, next := trace[0], Step(s, w, trace[0]);
      StepKeeps(s, w, e);
      StepOrphanings(s, w, e);
      OrphaningsGrow(s, next, trace[1..]);
      SumNonNegative(w.history, OrphaningSuccess);
      if e.Finish? {
        assert next.history[..|next.history| - 1] == w.history;
      }
      ThresholdAlong(s, next, trace[1..]);
    }
  }

  /** Until a straggler succeeds in half-open, the circuit is closed exactly while the consecutive provider
      failures stay below the threshold. */
  lemma ClosedBelowThreshold(s: Settings, trace: seq<Event>)
    requires s.Legal() && Runs(s, FRESH, trace) && Orphanings(After(s, FRESH, trace)) == 0
    ensures
      var w := After(s, FRESH, trace);
      w.breaker.mode == Closed <==> FailuresSinceSuccess(w.history) < s.threshold
  {
    ThresholdAlong(s, FRESH, trace);
  }

  /** "Consecutive provider failures open it": closed exactly while they are below the threshold. */
  predicate AtThreshold(s: Settings, w: World) {
    w.breaker.mode == Closed <==> FailuresSinceSuccess(w.history) < s.threshold
  }

  /** An orphaned probe ends without success while the circuit is closed, and the failures stay below the threshold. */
  predicate Premature(s: Settings, w: World, e: Event) {
    && w.breaker.mode == Closed && e.Finish? && e.probe && e.outcome != Succeeded
    && FailuresSinceSuccess(w.history) + (if e.outcome == ProviderFailed then 1 else 0) < s.threshold
  }

  predicate AlwaysAtThreshold(s: Settings, w: World, trace: seq<Event>)
    requires Runs(s, w, trace)
    decreases |trace|
  {
    AtThreshold(s, w) && (trace != [] ==> AlwaysAtThreshold(s, Step(s, w, trace[0]), trace[1..]))
  }

  predicate NeverPremature(s: Settings, w: World, trace: seq<Event>)
    requires Runs(s, w, trace)
    decreases |trace|
  {
    trace != [] ==> !Premature(s, w, trace[0]) && NeverPremature(s, Step(s, w, trace[0]), trace[1..])
  }

  lemma ThresholdStep(s: Settings, w: World, e: Event)
    requires Valid(s, w) && Enabled(w, e) && AtThreshold(s, w)
    ensures AtThreshold(s, Step(s, w, e)) <==> !Premature(s, w, e)
  {
    StepKeeps(s, w, e);
    if e.Finish? {
      var next := Step(s, w, e);
      assert next.history[..|next.history| - 1] == w.history;
    }
  }

  lemma {:induction false} ThresholdThroughout(s: Settings, w: World, trace: seq<Event>)
    requires Valid(s, w) && Runs(s, w, trace) && AtThreshold(s, w)
    ensures AlwaysAtThreshold(s, w, trace) <==> NeverPremature(s, w, trace)
    decreases |trace|
  {
    if trace != [] {
      ThresholdStep(s, w, trace[0]);
      StepKeeps(s, w, trace[0]);
      if AtThreshold(s, Step(s, w, trace[0])) {
        ThresholdThroughout(s, Step(s, w, trace[0]), trace[1..]);
      }
    }
  }

  /** Consecutive provider failures alone decide the circuit throughout a run if and only if no orphaned probe ends
      without success while the circuit is closed and the failures stay below the threshold. */
  lemma ThresholdExactlyWhen(s: Settings, trace: seq<Event>)
    requires s.Legal() && Runs(s, FRESH, trace)
    ensures AlwaysAtThreshold(s, FRESH, trace) <==> NeverPremature(s, FRESH, trace)
  {
    ThresholdThroughout(s, FRESH, trace);
  }

  // ---- How long the circuit stays open ----

  lemma {:induction false} WaitSetAt(s: Settings, history: seq<Fact>, until: real) returns (i: nat)
    requires WaitsUntil(s, history, until)
    ensures i < |history| && SetsWait(history[i]) && until == WaitFrom(s, history[i])
    ensures forall j | i < j < |history| :: history[j].outcome != Succeeded && !SetsWait(history[j])
  {
    i := |history| - 1;
    if !SetsWait(history[i]) {
      i := WaitSetAt(s, history[..i], until);
    }
  }

  /** While the circuit is not closed, the wait ends one duration after the last provider failure recorded with no
      probe awaited or by a probe, or at a probe's other failure if that came later; no success came since. */
  lemma OpenUntilExactly(s: Settings, trace: seq<Event>) returns (i: nat)
    requires s.Legal() && Runs(s, FRESH, trace) && After(s, FRESH, trace).breaker.mode != Closed
    ensures
      var w := After(s, FRESH, trace);
      && i < |w.history|
      && w.history[i].outcome != Succeeded
      && (w.history[i].probe || (w.history[i].outcome == ProviderFailed && !w.history[i].halfOpen))
      && w.breaker.openUntil ==
         w.history[i].at + (if w.history[i].outcome == ProviderFailed then s.openDurationMs as real / 1000.0 else 0.0)
      && forall j | i < j < |w.history| ::
           && !w.history[j].probe && w.history[j].outcome != Succeeded
           && (w.history[j].outcome == ProviderFailed ==> w.history[j].halfOpen)
  {
    RunKeeps(s, FRESH, trace);
    var w := After(s, FRESH, trace);
    i := WaitSetAt(s, w.history, w.breaker.openUntil);
  }

  /** A circuit that a provider failure opens, or finds open, admits nobody for the whole duration unless a releasing
      outcome is recorded. */
  lemma OpenForTheDuration(s: Settings, trace: seq<Event>, probe: bool, later: seq<Event>)
    requires s.Legal() && Runs(s, FRESH, trace) && Enabled(After(s, FRESH, trace), Finish(probe, ProviderFailed))
    requires Step(s, After(s, FRESH, trace), Finish(probe, ProviderFailed)).breaker.mode == Open
    requires Runs(s, Step(s, After(s, FRESH, trace), Finish(probe, ProviderFailed)), later)
    requires forall i | 0 <= i < |later| :: !Releases(later[i])
    ensures
      var w := After(s, FRESH, trace);
      var next := Step(s, w, Finish(probe, ProviderFailed));
      var end := After(s, next, later);
      end.now < w.now + s.Duration() ==>
        end.granted == next.granted && Acquire(Some(s), end.breaker, end.now).1 == Rejected
  {
    RunKeeps(s, FRESH, trace);
    var w := After(s, FRESH, trace);
    var next := Step(s, w, Finish(probe, ProviderFailed));
    StepKeeps(s, w, Finish(probe, ProviderFailed));
    assert next.breaker.openUntil == w.now + s.Duration();
    if After(s, next, later).now < w.now + s.Duration() {
      OpenHolds(s, next, later);
    }
  }

  /** What is announced: a circuit that a provider failure opens or a probe's failure keeps open, and one that a
      success closes or a probe's success keeps closed. */
  lemma SignalsMean(s: Settings, trace: seq<Event>, probe: bool, outcome: Outcome)
    requires s.Legal() && Runs(s, FRESH, trace) && Enabled(After(s, FRESH, trace), Finish(probe, outcome))
    ensures
      var w := After(s, FRESH, trace);
      var (after, signals) := Record(Some(s), w.breaker, probe, outcome, w.now);
      && (signals == [Opened] <==>
            outcome == ProviderFailed && after.mode == Open && (probe || w.breaker.mode == Closed))
      && (signals == [ClosedAgain] <==> after.mode == Closed && (probe || w.breaker.mode != Closed))
      && (signals == [] || signals == [Opened] || signals == [ClosedAgain])
  {
    RunKeeps(s, FRESH, trace);
  }

  /** A worker without a circuit admits every case and announces nothing. */
  lemma WithoutCircuit(b: Breaker, now: real, probe: bool, outcome: Outcome)
    ensures Acquire(None, b, now) == (b, Ordinary) && Record(None, b, probe, outcome, now) == (b, [])
  {
  }

  /** An outcome that lets the next caller in before the open duration is over. */
  predicate Releases(e: Event) {
    e.Finish? && (e.outcome == Succeeded || (e.probe && e.outcome == OtherFailed))
  }

  /** From an open circuit, nobody is admitted before `openUntil` unless a releasing outcome is recorded, and
      failures recorded meanwhile never shorten the wait. */
  lemma {:induction false} OpenHolds(s: Settings, w: World, trace: seq<Event>)
    requires Valid(s, w) && Runs(s, w, trace) && w.breaker.mode == Open
    requires forall i | 0 <= i < |trace| :: !Releases(trace[i])
    requires After(s, w, trace).now < w.breaker.openUntil
    ensures
      var end := After(s, w, trace);
      end.breaker.mode == Open && end.granted == w.granted && end.breaker.openUntil >= w.breaker.openUntil
    decreases |trace|
  {
    if trace != [] {
      var next := Step(s, w, trace[0]);
      StepKeeps(s, w, trace[0]);
      ClockRises(s, next, trace[1..]);
      assert !Releases(trace[0]);
      OpenHolds(s, next, trace[1..]);
    }
  }

  lemma {:induction false} ClockRises(s: Settings, w: World, trace: seq<Event>)
    requires Runs(s, w, trace)
    ensures After(s, w, trace).now >= w.now
    decreases |trace|
  {
    if trace != [] { ClockRises(s, Step(s, w, trace[0]), trace[1..]); }
  }

  /** The releasing outcomes are exactly those after which a caller is let in although the wait is not over. */
  lemma ReleasedExactlyBy(s: Settings, w: World, probe: bool, outcome: Outcome)
    requires Valid(s, w) && w.breaker.mode == Open && w.now < w.breaker.openUntil
    requires Enabled(w, Finish(probe, outcome))
    ensures
      var next := Step(s, w, Finish(probe, outcome));
      Acquire(Some(s), next.breaker, next.now).1 != Rejected <==> Releases(Finish(probe, outcome))
  {
    StepKeeps(s, w, Finish(probe, outcome));
  }

  // ---- The promise "exactly one probe" and "only provider failures open it" does fail ----

  lemma {:induction false} Extends(s: Settings, w: World, trace: seq<Event>, e: Event)
    requires Runs(s, w, trace) && Enabled(After(s, w, trace), e)
    ensures Runs(s, w, trace + [e]) && After(s, w, trace + [e]) == Step(s, After(s, w, trace), e)
    decreases |trace|
  {
    if trace == [] {
      assert [e][1..] == [];
    } else {
      assert (trace + [e])[1..] == trace[1..] + [e];
      Extends(s, Step(s, w, trace[0]), trace[1..], e);
    }
  }

  /** Two cases start, one fails and opens the circuit, the probe goes out, and the other case then succeeds. */
  lemma StragglerOrphansProbe(d: int) returns (trace: seq<Event>)
    requires d >= 1
    ensures
      var s := Settings(1, d);
      && Runs(s, FRESH, trace)
      && var w := After(s, FRESH, trace);
         w.breaker.mode == Closed && !w.breaker.probing && w.probes == 1
  {
    var s := Settings(1, d);
    trace := [];
    trace := More(s, trace, Ask);
    trace := More(s, trace, Ask);
    trace := More(s, trace, Finish(false, ProviderFailed));
    trace := More(s, trace, Elapse(s.Duration()));
    trace := More(s, trace, Ask);
    trace := More(s, trace, Finish(false, Succeeded));
  }

  lemma More(s: Settings, trace: seq<Event>, e: Event) returns (longer: seq<Event>)
    requires Runs(s, FRESH, trace) && Enabled(After(s, FRESH, trace), e)
    ensures Runs(s, FRESH, longer) && After(s, FRESH, longer) == Step(s, After(s, FRESH, trace), e)
  {
    longer := trace + [e];
    Extends(s, FRESH, trace, e);
  }

  /** Two probes can be in flight at once. */
  lemma TwoProbesInFlight(d: int) returns (trace: seq<Event>)
    requires d >= 1
    ensures Runs(Settings(1, d), FRESH, trace) && After(Settings(1, d), FRESH, trace).probes == 2
  {
    var s := Settings(1, d);
    trace := StragglerOrphansProbe(d);
    trace := More(s, trace, Ask);
    trace := More(s, trace, Finish(false, ProviderFailed));
    trace := More(s, trace, Elapse(s.Duration()));
    trace := More(s, trace, Ask);
  }

  /** A closed circuit with no provider failure since the last success can open, on a tool or harness failure. */
  lemma OpensWithoutProviderFailure(d: int) returns (trace: seq<Event>)
    requires d >= 1
    ensures
      var s := Settings(1, d);
      && Runs(s, FRESH, trace)
      && var w := After(s, FRESH, trace);
         && w.breaker.mode == Closed && FailuresSinceSuccess(w.history) == 0 && w.probes > 0
         && Step(s, w, Finish(true, OtherFailed)).breaker.mode == Open
  {
    trace := StragglerOrphansProbe(d);
    RunKeeps(Settings(1, d), FRESH, trace);
  }
}
