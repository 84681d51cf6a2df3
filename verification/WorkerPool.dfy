/** The pool that executes a shard's work list: a fixed set of workers that share a next index and a result
    list, under every interleaving, with a stop event. */
module WorkerPool {
  import opened Collections
  import opened Sharding

  datatype Worker<T> = Idle | Busy(item: T) | Returned

  /** A result stands here for the item it answers. `crashed` is whether some execution raised; `dropped` is
      bookkeeping: the items whose execution was cancelled or raised. */
  datatype Pool<T> = Pool(
    work: seq<T>, next: nat, workers: seq<Worker<T>>, results: seq<T>, stopped: bool, crashed: bool, dropped: seq<T>)

  /** A worker takes the next item or returns, finishes its case, raises, or is cancelled; or the stop event is set. */
  datatype Event = Take(worker: nat) | Finish(worker: nat) | Crash(worker: nat) | Cancel(worker: nat) | Stop

  function Start<T>(work: seq<T>, concurrency: nat): Pool<T> {
    Pool(work, 0, seq(if concurrency <= |work| then concurrency else |work|, _ => Idle), [], false, false, [])
  }

  predicate Enabled<T>(p: Pool<T>, e: Event) {
    match e
    case Take(w) => w < |p.workers| && p.workers[w].Idle?
    case Finish(w) => w < |p.workers| && p.workers[w].Busy?
    case Crash(w) => w < |p.workers| && p.workers[w].Busy?
    case Cancel(w) => w < |p.workers| && !p.workers[w].Returned? && p.stopped
    case Stop => true
  }

  function Step<T>(p: Pool<T>, e: Event): Pool<T>
    requires Enabled(p, e)
  {
    match e
    case Take(w) =>
      if p.stopped || p.next >= |p.work| then p.(workers := p.workers[w := Returned])
      else p.(workers := p.workers[w := Busy(p.work[p.next])], next := p.next + 1)
    case Finish(w) => p.(workers := p.workers[w := Idle], results := p.results + [p.workers[w].item])
    case Crash(w) =>
      p.(workers := p.workers[w := Returned], crashed := true, dropped := p.dropped + [p.workers[w].item])
    case Cancel(w) =>
      p.(workers := p.workers[w := Returned],
         dropped := if p.workers[w].Busy? then p.dropped + [p.workers[w].item] else p.dropped)
    case Stop => p.(stopped := true)
  }

  predicate Runs<T>(p: Pool<T>, trace: seq<Event>)
    decreases |trace|
  {
    trace == [] || (Enabled(p, trace[0]) && Runs(Step(p, trace[0]), trace[1..]))
  }

  function After<T>(p: Pool<T>, trace: seq<Event>): Pool<T>
    requires Runs(p, trace)
    decreases |trace|
  {
    if trace == [] then p else After(Step(p, trace[0]), trace[1..])
  }

  function Reported<T>(p: Pool<T>): Option<seq<T>> {
    if p.crashed && !p.stopped then None else Some(p.results)
  }

  class WorkloadPool<T> {
    const work: seq<T>
    var next: nat
    var workers: seq<Worker<T>>
    var results: seq<T>
    var stopped: bool
    var crashed: bool
    ghost var dropped: seq<T>

    ghost function State(): Pool<T>
      reads this
    {
      Pool(work, next, workers, results, stopped, crashed, dropped)
    }

    constructor (work: seq<T>, concurrency: nat)
      ensures State() == Start(work, concurrency)
    {
      this.work := work;
      next, results, stopped, crashed, dropped := 0, [], false, false, [];
      var size := if concurrency <= |work| then concurrency else |work|;
      workers := seq(size, _ => Idle);
    }

    method TakeNext(w: nat)
      requires Enabled(State(), Take(w))
      modifies this
      ensures State() == Step(old(State()), Take(w))
    {
      if stopped || next >= |work| {
        workers := workers[w := Returned];
        return;
      }
      var item := work[next];
      next := next + 1;
      workers := workers[w := Busy(item)];
    }

    method FinishCase(w: nat)
      requires Enabled(State(), Finish(w))
      modifies this
      ensures State() == Step(old(State()), Finish(w))
    {
      results := results + [workers[w].item];
      workers := workers[w := Idle];
    }

    method CrashCase(w: nat)
      requires Enabled(State(), Crash(w))
      modifies this
      ensures State() == Step(old(State()), Crash(w))
    {
      crashed := true;
      dropped := dropped + [workers[w].item];
      workers := workers[w := Returned];
    }

    method CancelTask(w: nat)
      requires Enabled(State(), Cancel(w))
      modifies this
      ensures State() == Step(old(State()), Cancel(w))
    {
      if workers[w].Busy? { dropped := dropped + [workers[w].item]; }
      workers := workers[w := Returned];
    }

    method RequestStop()
      modifies this`stopped
      ensures State() == Step(old(State()), Stop)
    {
      stopped := true;
    }

    /** What `execute` hands back once every worker has returned: the results, unless an execution raised and no stop
        was requested, in which case that exception. */
    method Outcome() returns (r: Option<seq<T>>)
      ensures r == Reported(State())
    {
      if !stopped && crashed { return None; }
      return Some(results);
    }
  }

  // ---- Conservation of the work list ----

  function Occurrences<T(==)>(s: seq<T>, x: T): nat {
    if s == [] then 0 else (if s[0] == x then 1 else 0) + Occurrences(s[1..], x)
  }

  lemma {:induction false} OccurrencesAppend<T>(s: seq<T>, y: T, x: T)
    ensures Occurrences(s + [y], x) == Occurrences(s, x) + if y == x then 1 else 0
  {
    if s == [] {
      assert s + [y] == [y];
    } else {
      assert (s + [y])[1..] == s[1..] + [y];
      OccurrencesAppend(s[1..], y, x);
    }
  }

  lemma {:induction false} OccurrencesAreMultiplicity<T>(s: seq<T>, x: T)
    ensures multiset(s)[x] == Occurrences(s, x)
  {
    if s != [] {
      assert s == [s[0]] + s[1..];
      OccurrencesAreMultiplicity(s[1..], x);
    }
  }

  function Held<T(==)>(w: Worker<T>, x: T): nat {
    if w.Busy? && w.item == x then 1 else 0
  }

  function HeldBy<T(==)>(workers: seq<Worker<T>>, x: T): nat {
    if workers == [] then 0 else Held(workers[0], x) + HeldBy(workers[1..], x)
  }

  lemma {:induction false} HeldByUpdate<T>(workers: seq<Worker<T>>, w: nat, now: Worker<T>, x: T)
    requires w < |workers|
    ensures HeldBy(workers[w := now], x) == HeldBy(workers, x) - Held(workers[w], x) + Held(now, x)
  {
    if w > 0 {
      assert workers[w := now][1..] == workers[1..][w - 1 := now];
      HeldByUpdate(workers[1..], w - 1, now, x);
    } else {
      assert workers[0 := now][1..] == workers[1..];
    }
  }

  lemma {:induction false} NothingHeld<T>(workers: seq<Worker<T>>, x: T)
    requires forall w | 0 <= w < |workers| :: !workers[w].Busy?
    ensures HeldBy(workers, x) == 0
  {
    if workers != [] { NothingHeld(workers[1..], x); }
  }

  /** Where the copies of one item are: finished, in flight, untaken or dropped. */
  function Whereabouts<T(==)>(p: Pool<T>, x: T): nat
    requires p.next <= |p.work|
  {
    Occurrences(p.results, x) + HeldBy(p.workers, x) + Occurrences(p.work[p.next..], x) + Occurrences(p.dropped, x)
  }

  /** Items are dropped only after a stop or by raising, and otherwise a worker returns only when nothing is left to
      take. */
  predicate Orderly<T>(p: Pool<T>) {
    && p.next <= |p.work|
    && (p.dropped != [] ==> p.stopped || p.crashed)
    && (p.stopped || p.crashed || p.next == |p.work| || forall w | 0 <= w < |p.workers| :: !p.workers[w].Returned?)
  }

  lemma StepOrderly<T>(p: Pool<T>, e: Event)
    requires Orderly(p) && Enabled(p, e)
    ensures Orderly(Step(p, e)) && Step(p, e).work == p.work && |Step(p, e).workers| == |p.workers|
  {
  }

  /** No step of any worker loses or copies an item. */
  lemma StepConserves<T>(p: Pool<T>, e: Event, x: T)
    requires Orderly(p) && Enabled(p, e)
    ensures Step(p, e).next <= |p.work| && Whereabouts(Step(p, e), x) == Whereabouts(p, x)
  {
    var q := Step(p, e);
    match e
    case Take(w) =>
      HeldByUpdate(p.workers, w, q.workers[w], x);
      if q.next != p.next {
        assert p.work[p.next..][1..] == p.work[q.next..];
      }
    case Finish(w) =>
      HeldByUpdate(p.workers, w, Idle, x);
      OccurrencesAppend(p.results, p.workers[w].item, x);
    case Crash(w) =>
      HeldByUpdate(p.workers, w, Returned, x);
      OccurrencesAppend(p.dropped, p.workers[w].item, x);
    case Cancel(w) =>
      HeldByUpdate(p.workers, w, Returned, x);
      if p.workers[w].Busy? { OccurrencesAppend(p.dropped, p.workers[w].item, x); }
    case Stop =>
  }

  lemma {:induction false} RunOrderly<T>(p: Pool<T>, trace: seq<Event>)
    requires Orderly(p) && Runs(p, trace)
    ensures var end := After(p, trace); Orderly(end) && end.work == p.work && |end.workers| == |p.workers|
    decreases |trace|
  {
    if trace != [] {
      StepOrderly(p, trace[0]);
      RunOrderly(Step(p, trace[0]), trace[1..]);
    }
  }

  lemma {:induction false} RunConserves<T>(p: Pool<T>, trace: seq<Event>, x: T)
    requires Orderly(p) && Runs(p, trace)
    ensures After(p, trace).next <= |After(p, trace).work| && Whereabouts(After(p, trace), x) == Whereabouts(p, x)
    decreases |trace|
  {
    if trace != [] {
      StepOrderly(p, trace[0]);
      StepConserves(p, trace[0], x);
      RunConserves(Step(p, trace[0]), trace[1..], x);
    }
  }

  lemma StartWhereabouts<T>(work: seq<T>, concurrency: nat, x: T)
    ensures Whereabouts(Start(work, concurrency), x) == Occurrences(work, x)
  {
    NothingHeld(Start(work, concurrency).workers, x);
    assert work[0..] == work;
  }

  /** The items in flight. */
  function InFlight<T(==)>(workers: seq<Worker<T>>): seq<T> {
    if workers == [] then []
    else (if workers[0].Busy? then [workers[0].item] else []) + InFlight(workers[1..])
  }

  lemma {:induction false} InFlightHeld<T>(workers: seq<Worker<T>>, x: T)
    ensures Occurrences(InFlight(workers), x) == HeldBy(workers, x)
  {
    if workers != [] {
      InFlightHeld(workers[1..], x);
      var rest := InFlight(workers[1..]);
      assert [] + rest == rest;
      if workers[0].Busy? { assert InFlight(workers)[1..] == rest; }
    }
  }

  function Everywhere<T(==)>(p: Pool<T>): multiset<T>
    requires p.next <= |p.work|
  {
    multiset(p.results) + multiset(InFlight(p.workers)) + multiset(p.work[p.next..]) + multiset(p.dropped)
  }

  lemma EverywhereCounts<T>(p: Pool<T>, x: T)
    requires p.next <= |p.work|
    ensures Everywhere(p)[x] == Whereabouts(p, x)
  {
    InFlightHeld(p.workers, x);
    OccurrencesAreMultiplicity(p.results, x);
    OccurrencesAreMultiplicity(InFlight(p.workers), x);
    OccurrencesAreMultiplicity(p.work[p.next..], x);
    OccurrencesAreMultiplicity(p.dropped, x);
  }

  lemma SameCounts<T(!new)>(a: multiset<T>, b: multiset<T>)
    requires forall x: T :: a[x] == b[x]
    ensures a == b
  {
  }

  lemma {:induction false} FewInFlight<T>(workers: seq<Worker<T>>)
    ensures |InFlight(workers)| <= |workers|
  {
    if workers != [] { FewInFlight(workers[1..]); }
  }

  /** In every state of every interleaving: finished, in-flight and untaken items make up the work list, except
      for those dropped after a stop or by raising; and no more than the configured number are in flight. */
  lemma PoolInvariant<T(!new)>(work: seq<T>, concurrency: nat, trace: seq<Event>)
    requires Runs(Start(work, concurrency), trace)
    ensures
      var p := After(Start(work, concurrency), trace);
      && Orderly(p) && p.work == work
      && |InFlight(p.workers)| <= |p.workers| == (if concurrency <= |work| then concurrency else |work|)
      && Everywhere(p) == multiset(work)
  {
    var start := Start(work, concurrency);
    RunOrderly(start, trace);
    var p := After(start, trace);
    FewInFlight(p.workers);
    forall x: T ensures Everywhere(p)[x] == multiset(work)[x] {
      RunConserves(start, trace, x);
      StartWhereabouts(work, concurrency, x);
      EverywhereCounts(p, x);
      OccurrencesAreMultiplicity(work, x);
    }
    SameCounts(Everywhere(p), multiset(work));
  }

  /** Once the pool is stopped no further item is taken. */
  lemma {:induction false} StopHolds<T>(p: Pool<T>, trace: seq<Event>)
    requires p.stopped && Runs(p, trace)
    ensures After(p, trace).stopped && After(p, trace).next == p.next
    decreases |trace|
  {
    if trace != [] { StopHolds(Step(p, trace[0]), trace[1..]); }
  }

  /** Before a stop, the items taken are a prefix of the work list, each given to the worker that asked. */
  lemma TakesNext<T>(work: seq<T>, concurrency: nat, trace: seq<Event>, w: nat)
    requires Runs(Start(work, concurrency), trace) && Enabled(After(Start(work, concurrency), trace), Take(w))
    ensures
      var p := After(Start(work, concurrency), trace);
      var q := Step(p, Take(w));
      if !p.stopped && p.next < |work| then
        q == p.(workers := p.workers[w := Busy(work[p.next])], next := p.next + 1)
      else q == p.(workers := p.workers[w := Returned])
  {
    RunOrderly(Start(work, concurrency), trace);
  }

  predicate Over<T>(p: Pool<T>) {
    forall w | 0 <= w < |p.workers| :: p.workers[w].Returned?
  }

  lemma {:induction false} IdleCrew<T>(workers: seq<Worker<T>>)
    requires forall w | 0 <= w < |workers| :: !workers[w].Busy?
    ensures InFlight(workers) == []
  {
    if workers != [] { IdleCrew(workers[1..]); }
  }

  /** A pool that is not stopped ends with a permutation of its work or with an exception; a stopped one with a part of
      its work. Whatever is reported has no duplicates when the work has none. */
  lemma PoolOutcome<T(!new)>(work: seq<T>, concurrency: nat, trace: seq<Event>)
    requires concurrency >= 1 && Runs(Start(work, concurrency), trace)
    requires Over(After(Start(work, concurrency), trace))
    ensures
      var p := After(Start(work, concurrency), trace);
      && (Reported(p).None? <==> p.crashed && !p.stopped)
      && (!p.stopped && Reported(p).Some? ==> multiset(Reported(p).value) == multiset(work))
      && multiset(p.results) <= multiset(work)
      && (NoDuplicates(work) ==> NoDuplicates(p.results))
  {
    PoolInvariant(work, concurrency, trace);
    var p := After(Start(work, concurrency), trace);
    IdleCrew(p.workers);
    if !p.stopped && !p.crashed {
      assert work != [] ==> p.workers[0].Returned?;
      assert work[p.next..] == [];
    }
    if NoDuplicates(work) { PartWithoutDuplicates(work, p.results); }
  }

  lemma TwiceCounts<T>(s: seq<T>, i: nat, j: nat)
    requires i < j < |s|
    ensures multiset(s)[s[j]] >= if s[i] == s[j] then 2 else 1
  {
    assert s == s[..j] + s[j..];
    assert s[i] == s[..j][i] && s[j] == s[j..][0];
  }

  lemma PartWithoutDuplicates<T>(whole: seq<T>, part: seq<T>)
    requires NoDuplicates(whole) && multiset(part) <= multiset(whole)
    ensures NoDuplicates(part)
  {
    forall i, j | 0 <= i < j < |part| ensures part[i] != part[j] {
      TwiceCounts(part, i, j);
      NoDuplicatesMultiset(whole, part[j]);
    }
  }

  /** The slice of one shard, executed by an unstopped pool that reports, is what its upload carries. */
  lemma PoolFillsSlice(
    cases: seq<string>, count: nat, shard: nat, iterations: nat, concurrency: nat, trace: seq<Event>)
    requires count > 0 && concurrency >= 1
    requires
      var start := Start(Work(cases, count, shard, iterations), concurrency);
      && Runs(start, trace) && Over(After(start, trace))
      && !After(start, trace).stopped && Reported(After(start, trace)).Some?
    ensures
      var work := Work(cases, count, shard, iterations);
      multiset(Reported(After(Start(work, concurrency), trace)).value) == multiset(work)
  {
    PoolOutcome(Work(cases, count, shard, iterations), concurrency, trace);
  }

  // ---- The pool comes to an end ----

  function Pending<T>(w: Worker<T>): nat {
    match w case Idle => 1 case Busy(_) => 2 case Returned => 0
  }

  function PendingAll<T>(workers: seq<Worker<T>>): nat {
    if workers == [] then 0 else Pending(workers[0]) + PendingAll(workers[1..])
  }

  function Measure<T>(p: Pool<T>): int {
    3 * (|p.work| - p.next) + PendingAll(p.workers)
  }

  lemma {:induction false} PendingUpdate<T>(workers: seq<Worker<T>>, w: nat, now: Worker<T>)
    requires w < |workers|
    ensures PendingAll(workers[w := now]) == PendingAll(workers) - Pending(workers[w]) + Pending(now)
  {
    if w > 0 {
      assert workers[w := now][1..] == workers[1..][w - 1 := now];
      PendingUpdate(workers[1..], w - 1, now);
    } else {
      assert workers[0 := now][1..] == workers[1..];
    }
  }

  function WorkerSteps(trace: seq<Event>): nat {
    if trace == [] then 0 else (if trace[0].Stop? then 0 else 1) + WorkerSteps(trace[1..])
  }

  lemma StepDescends<T>(p: Pool<T>, e: Event)
    requires Orderly(p) && Enabled(p, e)
    ensures Measure(Step(p, e)) <= Measure(p) - if e.Stop? then 0 else 1
  {
    if !e.Stop? { PendingUpdate(p.workers, e.worker, Step(p, e).workers[e.worker]); }
  }

  lemma {:induction false} StepsBounded<T>(p: Pool<T>, trace: seq<Event>)
    requires Orderly(p) && Runs(p, trace)
    ensures WorkerSteps(trace) <= Measure(p)
    decreases |trace|
  {
    if trace != [] {
      StepOrderly(p, trace[0]);
      StepDescends(p, trace[0]);
      StepsBounded(Step(p, trace[0]), trace[1..]);
    }
  }

  lemma {:induction false} AllIdle<T>(workers: seq<Worker<T>>)
    requires forall w | 0 <= w < |workers| :: workers[w].Idle?
    ensures PendingAll(workers) == |workers|
  {
    if workers != [] { AllIdle(workers[1..]); }
  }

  /** No run takes more than three worker steps per item and one per worker, and until every worker has returned
      some worker can step; so every run that keeps stepping ends with all workers returned. */
  lemma PoolEnds<T>(work: seq<T>, concurrency: nat, trace: seq<Event>)
    requires Runs(Start(work, concurrency), trace)
    ensures WorkerSteps(trace) <= 3 * |work| + concurrency
    ensures
      var p := After(Start(work, concurrency), trace);
      Over(p) || exists w: nat :: Enabled(p, Take(w)) || Enabled(p, Finish(w))
  {
    var start := Start(work, concurrency);
    StepsBounded(start, trace);
    AllIdle(start.workers);
    var p := After(start, trace);
    if !Over(p) {
      var w: nat :| w < |p.workers| && !p.workers[w].Returned?;
      assert Enabled(p, Take(w)) || Enabled(p, Finish(w));
    }
  }
}
