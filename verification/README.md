# AgentStorm: a verified model

AgentStorm runs a dataset of agent cases over many workers. A worker executes one shard of the cases and uploads
one document; the Result API queues the shards, hands out execution permits, checks and stores the uploads and
keeps the run's aggregate. This project models the parts of both sides that carry state, and proves what they keep
over every run.

- **Shard queue and run state machine.** `ShardStore` holds the register, claim, renew, reserve, finalize and
  terminate transactions as steps of one store with a clock that never goes back; `Repository` is the class that
  performs them on its fields. `ShardInvariant` proves one invariant of every reachable store and `ShardTheorems`
  draws the results over whole runs from it. `ShardEffects` says of each transaction when it takes effect and what it
  then changes, in terms of the stored rows alone. Reserve and finalize are separate steps, so any other step may fall
  between them. `ShardWitnesses` holds runs in which a promise fails.
- **Permits.** `Permits` and `PermitRepository` model the concurrency limiter with leases and the sliding-window
  rate limiter over a pruned event table, next to the full history that pruning forgets; `PermitEffects` says what
  each call does to the rows.
- **Worker.** `Sharding` and `WorkerPool` model the modulo slices and the pool that executes one; `Retry` the
  attempt loop with its budgets; `Circuit` the breaker that all cases of a worker share.
- **Chat adapter.** `ChatLoop` is the code of the tool loop (status 429 is section 4 of RFC 6585, Retry-After is
  section 10.2.3 of RFC 9110), `ChatTheorems` what holds of every log of exchanges it can produce, and `ChatOutcomes`
  what it sends, when it stops and what it reports, from the replies and the handlers.
- **Accounting.** `Texts` and `Uploads` are the upload check with its 64-bit arithmetic, `AcceptedUploads` what a
  document that passed it is known to hold, `RunnerAccounting` the
  worker's totals and the document built from them, `Pricing` the two cost roundings, `Aggregates` the meaning of the
  stored aggregate, `EndToEnd` what a complete run holds, `Paging` the case listing with the client that follows its
  cursors, and `Listings` the stores those requests see while shards keep arriving.

Everything outside is a parameter: clocks and elapsed time, HTTP replies, tool results, jitter draws, the order in
which workers step, and the store seen by each page request. Lease tokens and permit ids are drawn from a counter
and are therefore fresh. A payload hash is modelled by the payload itself, so equal hashes mean equal payloads. An
idempotency key is modelled by the identity it spells out, and a label with a fixed vocabulary by an enumeration with
one more constructor for any other text.

`Valid` and `LeasesValid` in a `requires` are the invariant of `ShardInvariant.ReachableValid`, so such a lemma
speaks about every reachable store.

## Where the code does something else than promised

- **Sending a shard again.** docs/result-api.md (lines 33-36) promises success for the same document. A queued run
  that is still collecting answers "lease lost", because completing the shard gave its lease up; every other run
  answers success (`ShardTheorems.ResendOutcome`, with the run `ShardWitnesses.ResendIsRefused`).
- **Fencing.** A dead lease token is refused exactly while a queued run is collecting; after the run settles the
  token is not looked at (`ShardTheorems.FenceFallsWhenSettled`, with the run `ShardWitnesses.DeadTokenCompletes`).
  docs/result-api.md allows late partial shards.
- **Rate events.** The event table is keyed by request and pruned only after the insert. In every reachable state and
  under every policy a request is refused by that key exactly when it passes every guard and the table still holds an
  event of it over an hour old (`Permits.BlockedExactlyWhen`); a new grant to any other request removes it
  (`Permits.GrantUnblocks`; `Permits.StaleEventBlocksRegrant` and `Permits.StaleEventArises` are such a run).
- **Exactly one concurrent half-open probe** (docs/fault-scenarios.md, line 39) holds throughout a run if and only if
  no ordinary case that started earlier succeeds while the circuit is half-open (`Circuit.SingleProbeExactlyWhen`,
  with the run `Circuit.TwoProbesInFlight`).
- **Consecutive provider failures open the circuit** (the same line), and nothing else does: true throughout a run if
  and only if no probe orphaned in that way ends without success while the circuit is closed and the failures stay
  below the threshold (`Circuit.ThresholdExactlyWhen`, `Circuit.OpensExactlyWhen`, with the run
  `Circuit.OpensWithoutProviderFailure`).
- **Upload check.** The split into succeeded and failed is not compared with the cases
  (`Uploads.SucceededCountIsUnchecked`), and a document that omits the summary's usage flag is stored as complete
  even over incomplete cases (`Uploads.NormalizedStaysAccepted`, with the document
  `Uploads.UnsaidUsageIsStoredComplete`).
- **Runner uploads.** A document the runner builds always adds up, and is still refused for what some results report:
  `RunnerAccounting.RunnerUploadAccepted` says exactly when. An execution error of kind "assertion", as the chat
  adapter raises when its turns are spent, is one (`RunnerAccounting.SpentTurnsIsRefused`).

## Model

| member | source | states |
|---|---|---|
| `Repository.PostgresRepository.RegisterRun` | internal/results/postgres.go:75-137 | new store and reply are the register step: insert the run with its queue rows, or compare the immutable registration |
| `Repository.PostgresRepository.TerminateRun` | internal/results/postgres.go:139-188 | new store and reply are the terminate step: conflict rules, status, reason and withdrawal of open queue rows |
| `Repository.PostgresRepository.ClaimShard` | internal/results/postgres.go:190-263 | new store and reply are the claim step, including the repeated claim |
| `Repository.PostgresRepository.RenewShardLease` | internal/results/postgres.go:265-286 | new store and reply are the renew step, which `ShardEffects.RenewExactlyWhen` describes by the row |
| `Repository.PostgresRepository.ReserveShard` | internal/results/postgres.go:489-586 | new store and reply are the reserve step, with the upload check before it |
| `Repository.PostgresRepository.InsertAll` | internal/results/postgres.go:657-720 | the loop inserts every case or none: the rows after it, or no rows if one contradicts a stored case |
| `Repository.PostgresRepository.FinalizeShard` | internal/results/postgres.go:588-744 | new store and reply are the finalize step, with the aggregate and status of `ShardEffects.FinalizeEffect` and `Aggregates.OutcomesCounted` |
| `Repository.PostgresRepository.UploadShardWithLease` | internal/results/service.go:87-142 | an undisturbed upload is reserve, then the raw document, then finalize unless the shard is already complete; a document that cannot be written leaves the reservation; the shard's costs come back exactly with a created shard |
| `ShardInvariant.InsertCasesSpec` | internal/results/postgres.go:657-720 | case insertion succeeds exactly when no case contradicts a stored row, and then stores every case, once |
| `ShardInvariant.InsertCasesInOrder` | internal/results/postgres.go:657-720 | what is stored then is the rows that were there followed by the cases that were not, in the order of the upload |
| `ShardInvariant.CountDecides` | internal/results/postgres.go:828-836 | counting complete receipts decides completeness: with distinct indices in range the count is the expected number exactly when every index is there |
| `ShardInvariant.StepKeeps` | internal/results/postgres.go:75-744 | every transaction keeps the invariant over receipts, status, queue, leases, rows and aggregate |
| `ShardInvariant.ReachableValid` | internal/results/postgres.go:75-919 | the invariant holds in every store any interleaving of clients can reach |
| `ShardTheorems.TerminalStatusAbsorbs` | internal/results/postgres.go:900-917 | complete, cancelled and harness_failed never change again, although the refresh can write collecting |
| `ShardTheorems.CompletionIsExact` | internal/results/postgres.go:828-917 | a run nobody terminated is complete if and only if every shard index has a complete receipt |
| `ShardTheorems.DeadForever` | internal/results/postgres.go:224-258 | a token that expired or was replaced holds no lease in any later state |
| `ShardTheorems.DeadTokenIsFencedOff` | internal/results/postgres.go:525-542 | a dead token can never again renew, reserve or finalize while the run collects, whatever happened since, and its refusals change nothing |
| `ShardTheorems.FenceFallsWhenSettled` | internal/results/postgres.go:620-634 | for a run that is not queued or not collecting the presented lease makes no difference |
| `ShardTheorems.QueueConservation` | internal/results/postgres.go:288-317 | in every reachable queued run pending + leased + completed = expected with work left while collecting, nothing offered or leased once settled, and a row finished exactly when its receipt is |
| `ShardTheorems.NoShardIsLost` | internal/results/postgres.go:235-251 | an unfinished shard nobody leases or renews for one lease duration is available again |
| `ShardTheorems.OneLeasePerWorker` | internal/results/postgres.go:224-251 | in every reachable state a worker holds at most one live lease of a run |
| `ShardTheorems.ClaimDiscipline` | internal/results/postgres.go:218-258 | a repeated claim rotates the token of the held shard; otherwise the lowest available shard is taken, and empty is reported exactly when there is none |
| `ShardTheorems.ReceiptIsPinned` | internal/results/postgres.go:549-586 | the first reservation fixes a shard's payload in every later state, and completion is never undone |
| `ShardTheorems.CreatedAtMostOnce` | internal/results/postgres.go:636-743 | over any run of steps created = true is answered at most once per shard |
| `ShardTheorems.FinalizeCompletesExactlyWhen` | internal/results/postgres.go:620-720 | a finalize completes a shard exactly when it is not fenced off, presents the pinned payload of an incomplete shard and contradicts no stored case |
| `ShardTheorems.RefusalChangesNothing` | internal/results/postgres.go:139-744 | every refused step, a conflicting case included, leaves all stored state as it was |
| `ShardTheorems.ResendOutcome` | internal/results/postgres.go:525-586 | a completed shard's document sent again is a no-op answered "already complete", except in a queued collecting run, which refuses it |
| `ShardWitnesses.ResendIsRefused` | internal/results/postgres.go:525-542 | a reachable queued collecting run with a completed shard that refuses that shard's own document under every lease |
| `ShardWitnesses.DeadTokenCompletes` | internal/results/postgres.go:620-634 | a reachable cancelled run in which an expired token reserves and completes its shard |
| `ShardTheorems.UploadResumes` | internal/results/postgres.go:549-586 | an upload that stopped after its reservation is taken up by the same document and completes unless it contradicts a stored case; another document conflicts |
| `ShardTheorems.RowsOnlyGrow` | internal/results/postgres.go:682-720 | a stored case is never changed or removed by any later step |
| `ShardTheorems.RegisterRepeats` | internal/results/postgres.go:75-124 | at any later time the same registration is accepted and changes nothing, and a different one conflicts |
| `ShardTheorems.TerminateRepeats` | internal/results/postgres.go:139-188 | at any later time the same terminal request is accepted and changes nothing, and a different status or reason conflicts |
| `ShardTheorems.LeaseLasts` | internal/results/postgres.go:224-286 | a lease just given or renewed holds for exactly the lease duration |
| `ShardEffects.MalformedRefused` | internal/results/service.go:58-142 | a request that fails its checks is refused before anything is looked up, and nothing changes |
| `ShardEffects.UnknownRun` | internal/results/postgres.go:139-744 | a request for a run that is not registered finds nothing, and a renewal has lost its lease |
| `ShardEffects.RegisterEffect` | internal/results/postgres.go:75-137 | a registration is refused, stored as sent with one queued row per shard, or compared with the stored one, and nothing else changes |
| `ShardEffects.RegisteredIsCompared` | internal/results/postgres.go:105-124 | after any further steps the same registration is answered as known and a different one as a conflict |
| `ShardEffects.TerminateEffect` | internal/results/postgres.go:139-188 | a terminal request takes effect exactly on a collecting run: status and reason are stored and every row that is not finished is withdrawn |
| `ShardEffects.ClaimEffect` | internal/results/postgres.go:190-263 | a claim succeeds exactly on a collecting queued run with a shard the worker holds or nobody holds, leases the held or else the lowest one for 45 seconds under a new token, and changes no other row |
| `ShardEffects.RenewExactlyWhen` | internal/results/postgres.go:265-286 | a renewal succeeds exactly when the row is leased under the token and has not run out; then that row ends 45 seconds from now and nothing else changes |
| `ShardEffects.ReserveEffect` | internal/results/postgres.go:489-586 | a reservation is refused out of range or without the lease it needs, stores the document of a shard that has none, conflicts with another document, and otherwise changes nothing |
| `ShardEffects.FinalizeEffect` | internal/results/postgres.go:588-744 | a finalize completes the shard exactly when it presents the reserved document of an incomplete shard under its lease and contradicts no stored case: receipt, queue row, rows, aggregate, status and completion time are those of the completed shard |
| `ShardEffects.QueueStatusMeans` | internal/results/postgres.go:288-317 | pending, available, leased and completed each count the rows of their own condition |
| `ShardEffects.ShardCostsMean` | internal/results/pricing.go:20-40 | a shard has costs exactly when prices are registered and its usage is not incomplete: each kind of tokens at its own price, and their sum |
| `Aggregates.OutcomeCounts` | internal/results/postgres.go:748-754 | total is succeeded plus failed, and the two kinds of failure never exceed the failures |
| `Aggregates.AttemptCounts` | internal/results/postgres.go:755-765 | attempts are retries plus attempted cases; retry successes, retried cases, injected faults and rejections are bounded by what they count within |
| `Aggregates.OutcomesCounted` | internal/results/postgres.go:749-757 | each outcome count of the aggregate is the number of stored cases that meet its own condition |
| `Aggregates.AttemptsCounted` | internal/results/postgres.go:755-765 | attempts, injected faults and circuit rejections are numbers of stored attempts, and every attempt but the first of a case is a retry |
| `Aggregates.SumsAdded` | internal/results/postgres.go:770-788 | tokens, tool calls and model calls are sums of their own fields, model calls unknown as soon as one case leaves them out, and usage complete exactly when no case is incomplete |
| `Aggregates.AggregateIgnoresOrder` | internal/results/postgres.go:746-817 | the aggregate depends on which cases are stored, not on the order they arrived in |
| `Aggregates.CostKnownExactlyWhen` | internal/results/postgres.go:746-817 | in every reachable state a run has a cost exactly when prices are registered, a case is stored and all stored usage is complete, and the cost is its two parts |
| `PermitRepository.PermitTables.AcquirePermit` | internal/results/postgres.go:321-442 | new tables and reply are the acquire step: prune, refresh a repeat, check both limits, record permit and rate event |
| `PermitRepository.PermitTables.RefreshPermit` | internal/results/postgres.go:370-388 | a repeated request keeps its permit under a new token, or has lost it |
| `PermitRepository.PermitTables.InsertPermit` | internal/results/postgres.go:417-441 | the permit row, the event under its key and the pruning, or the key conflict |
| `PermitRepository.PermitTables.RenewPermit` | internal/results/postgres.go:444-465 | new tables and reply are the renew step, which `PermitEffects.RenewEffect` describes by the rows |
| `PermitRepository.PermitTables.ReleasePermit` | internal/results/postgres.go:467-479 | new tables and reply are the release step, which `PermitEffects.ReleaseEffect` describes by the rows |
| `Permits.ConcurrencyBound` | internal/results/postgres.go:393-411 | after any calls and any passage of time, unreleased unexpired permits stay within every positive maximum, overall and per provider |
| `Permits.EmptyIsBounded` | internal/results/postgres.go:393-411 | the empty tables are within every maximum, so the bound holds in every reachable state |
| `Permits.LapsedForever` | internal/results/postgres.go:361-388 | a permit released or expired at some point of any run is not active at any later point, through repeats, renewals, releases, pruning and new grants |
| `PermitEffects.AcquireEffect` | internal/results/postgres.go:321-442 | in every reachable state: a kept request is granted exactly while its permit is unreleased and unexpired; any other waits for capacity, then for the rate, then is refused by its own event, and is otherwise granted |
| `PermitEffects.RepeatEffect` | internal/results/postgres.go:361-388 | a repeated request keeps its permit id under a new token for another lease, or has lost it; no limit is looked at and no event recorded |
| `PermitEffects.FirstEffect` | internal/results/postgres.go:393-441 | a request without a permit meets the limits as counts of rows and of events in the last minute, then its own event; otherwise it gets a new permit and its event is recorded |
| `PermitEffects.PrunedTable` | internal/results/postgres.go:430-437 | after a new permit the event table is exactly the history of the last hour |
| `PermitEffects.RefusedEffect` | internal/results/postgres.go:342-360 | an unknown, settled or otherwise registered run is refused for that reason and nothing changes |
| `PermitEffects.RenewEffect` | internal/results/postgres.go:444-465 | in every reachable state a renewal succeeds exactly when a row of that run, id and token is unreleased and unexpired; that row gets another lease and nothing else changes |
| `PermitEffects.ReleaseEffect` | internal/results/postgres.go:467-479 | in every reachable state a release succeeds exactly when a row has that run, id and token; that row is released, at its first release time, the permit is inactive and nothing else changes |
| `PermitEffects.ReleaseFreesCapacity` | internal/results/postgres.go:393-411 | releasing an active permit frees one place, overall and for its provider |
| `Permits.OnlyNewGrantsAreEvents` | internal/results/postgres.go:361-437 | only a grant with a new permit is a rate event, and only below every rate limit |
| `Permits.RateIgnoresPruning` | internal/results/postgres.go:402-437 | the rate decision over the pruned table is the decision over the full history |
| `Permits.RateBound` | internal/results/postgres.go:402-415 | over the full history of any run, every half-open minute holds at most the configured number of new grants, overall and of each provider |
| `Permits.PruningShowsExactlyWhen` | internal/results/postgres.go:430-437 | in every reachable state pruning changes a reply exactly for a request that passes every guard and whose event is in the history but no longer in the table |
| `Permits.GrantedExactlyWhen` | internal/results/postgres.go:354-441 | in every reachable state a request gets a new permit exactly when it passes every guard and the table holds no event of it |
| `Permits.BlockedExactlyWhen` | internal/results/postgres.go:430-434 | in every reachable state and under every policy a request is refused by the event key exactly when it passes every guard and the table holds an event of it over an hour old |
| `Permits.GrantUnblocks` | internal/results/postgres.go:435-437 | a new grant to any other request removes every event that blocks a request without a permit row |
| `Permits.StaleEventBlocksRegrant` | internal/results/postgres.go:430-437 | a table in which a request is refused by its own old event until another grant drops it |
| `Permits.StaleEventArises` | internal/results/postgres.go:336-341 | one grant and an hour of silence lead to that state |
| `Sharding.WorkMembers` | worker/src/agentstorm_worker/runner.py:136-145 | an item is in a shard's work exactly when its case sits at a position of that residue and its iteration is in range |
| `Sharding.SlicesPartition` | worker/src/agentstorm_worker/runner.py:136-145 | for any shard count each case of each iteration is in exactly one shard's work, once |
| `Sharding.WorkOrder` | worker/src/agentstorm_worker/runner.py:136-145 | the work list in order: iteration by iteration, and in each the cases from position shard_index on in steps of shard_count |
| `WorkerPool.WorkloadPool.constructor` | worker/src/agentstorm_worker/runner.py:146-164 | the pool starts with min(concurrency, work) idle workers and nothing taken |
| `WorkerPool.WorkloadPool.TakeNext` | worker/src/agentstorm_worker/runner.py:151-158 | a worker takes the next item under the lock, or returns when stopped or out of work |
| `WorkerPool.WorkloadPool.FinishCase` | worker/src/agentstorm_worker/runner.py:159-159 | the result is appended and the worker is idle again |
| `WorkerPool.WorkloadPool.CrashCase` | worker/src/agentstorm_worker/runner.py:159-159 | an execution that raises ends its worker and loses its item |
| `WorkerPool.WorkloadPool.RequestStop` | worker/src/agentstorm_worker/runner.py:167-169 | the stop event is set and nothing else changes |
| `WorkerPool.WorkloadPool.CancelTask` | worker/src/agentstorm_worker/runner.py:169-174 | a task not done after a stop is cancelled and its item dropped |
| `WorkerPool.WorkloadPool.Outcome` | worker/src/agentstorm_worker/runner.py:166-186 | the results are handed back unless an execution raised and no stop was requested |
| `WorkerPool.PoolInvariant` | worker/src/agentstorm_worker/runner.py:146-178 | in every interleaving finished, in-flight, untaken and dropped items are the work list as a multiset, with min(concurrency, work) workers and no more in flight |
| `WorkerPool.TakesNext` | worker/src/agentstorm_worker/runner.py:151-158 | in every reachable state an idle worker gets the next item of the list, or returns when stopped or out of work |
| `WorkerPool.StopHolds` | worker/src/agentstorm_worker/runner.py:151-158 | once the pool is stopped no further item is taken |
| `WorkerPool.PoolOutcome` | worker/src/agentstorm_worker/runner.py:146-178 | a pool that is not stopped ends with a permutation of its work, or with an exception exactly if an execution raised; a stopped one with a part of its work; neither with duplicates |
| `WorkerPool.PoolEnds` | worker/src/agentstorm_worker/runner.py:151-178 | at most three worker steps per item and one per worker, and some worker can step until all have returned |
| `WorkerPool.PoolFillsSlice` | worker/src/agentstorm_worker/runner.py:136-178 | an unstopped pool over a shard's work that reports has exactly one result per item of the slice |
| `Circuit.CircuitBreaker.AcquirePermit` | worker/src/agentstorm_worker/circuit.py:32-49 | new state and grant are the acquire function of the old state |
| `Circuit.CircuitBreaker.RecordTerminal` | worker/src/agentstorm_worker/circuit.py:51-98 | new state and signals are the record function of the old state; `Circuit.OpenUntilExactly` and `Circuit.BreakerInvariant` say what that state is from the outcomes recorded |
| `Circuit.BreakerInvariant` | worker/src/agentstorm_worker/circuit.py:32-98 | over all interleavings: half-open is the probe flag; closed exactly when the recorded outcomes say so, and then the counter is the provider failures since the last success, below the threshold; one probe per half-open entry; probes in flight are the awaited one plus the orphaned ones |
| `Circuit.AdmissionDiscipline` | worker/src/agentstorm_worker/circuit.py:32-49 | ordinary permits are issued exactly while closed, a probe exactly when the open time is over, and nothing else enters half-open |
| `Circuit.OpensExactlyWhen` | worker/src/agentstorm_worker/circuit.py:63-93 | a closed circuit opens at the threshold, or when an orphaned probe ends without success |
| `Circuit.SingleProbeExactlyWhen` | worker/src/agentstorm_worker/circuit.py:79-85 | a run has exactly one probe in flight in half-open and none otherwise, in all its states, if and only if no ordinary case succeeded during half-open |
| `Circuit.ClosedBelowThreshold` | worker/src/agentstorm_worker/circuit.py:79-93 | until that happens the circuit is closed exactly while consecutive provider failures are below the threshold |
| `Circuit.ThresholdExactlyWhen` | worker/src/agentstorm_worker/circuit.py:63-93 | consecutive provider failures alone decide the circuit throughout a run if and only if no orphaned probe ends without success while it is closed and the failures stay below the threshold |
| `Circuit.OpenHolds` | worker/src/agentstorm_worker/circuit.py:39-43 | from an open circuit nobody is admitted before the open time is over unless a releasing outcome is recorded, and failures never shorten the wait |
| `Circuit.OpenUntilExactly` | worker/src/agentstorm_worker/circuit.py:63-97 | in every reachable state that is not closed the wait ends one duration after the last provider failure recorded by a probe or with no probe awaited, or at a probe's other failure if that came later, and no success came since |
| `Circuit.OpenForTheDuration` | worker/src/agentstorm_worker/circuit.py:69-97 | a circuit that a provider failure opens or finds open admits nobody for the whole duration unless a releasing outcome is recorded |
| `Circuit.SignalsMean` | worker/src/agentstorm_worker/circuit.py:63-98 | an opening is announced exactly for a provider failure that opens the circuit or is a probe's, a closing exactly for a success that closes it or is a probe's |
| `Circuit.WithoutCircuit` | worker/src/agentstorm_worker/circuit.py:32-60 | a worker without a circuit admits every case and announces nothing |
| `Circuit.ReleasedExactlyBy` | worker/src/agentstorm_worker/circuit.py:63-98 | the outcomes that let a caller in early are successes and non-provider probe outcomes, and no others |
| `Circuit.TwoProbesInFlight` | worker/src/agentstorm_worker/circuit.py:79-85 | a run with two probes in flight |
| `Circuit.OpensWithoutProviderFailure` | worker/src/agentstorm_worker/circuit.py:73-76 | a run in which a closed circuit opens with no provider failure since the last success |
| `Retry.RoundHalfEven` | worker/src/agentstorm_worker/retry.py:25-25 | the nearest integer, exact halves to even |
| `Retry.BackoffBounds` | worker/src/agentstorm_worker/retry.py:9-25 | a backoff is between zero and the maximum and within the jitter ratio and half a millisecond of the capped exponential |
| `Retry.CappedGrows` | worker/src/agentstorm_worker/retry.py:16-17 | the capped exponential never shrinks |
| `Retry.CappedDoubles` | worker/src/agentstorm_worker/retry.py:16-17 | it starts at the initial backoff and doubles up to the maximum |
| `Retry.PlainBackoff` | worker/src/agentstorm_worker/retry.py:16-19 | without jitter the backoff starts at the initial one and doubles up to the maximum |
| `Retry.JitteredBackoff` | worker/src/agentstorm_worker/retry.py:18-25 | with jitter it is the capped exponential spread by the draw around itself, to the nearest millisecond |
| `Retry.ChooseRetry` | worker/src/agentstorm_worker/runner.py:304-330 | the decision and backoff of one failed attempt |
| `Retry.ExecuteAttempts` | worker/src/agentstorm_worker/runner.py:271-368 | the loop terminates with attempts that each follow from those before, from the deadline set at the start of the case; it ends at the first that is not retried and is cancelled only where a stop catches it |
| `Retry.RetriedExactlyWhen` | worker/src/agentstorm_worker/runner.py:304-330 | an attempt is retried exactly when it is a provider failure other than circuit_open, safe or ambiguous with opt-in, not a probe, below the attempt limit and within both budgets |
| `Retry.DecisionMeans` | worker/src/agentstorm_worker/runner.py:304-330 | each decision label by its meaning: which failures may be retried at all, and the first of probe, attempts, backoff budget and deadline that forbids it |
| `Retry.AttemptErrors` | worker/src/agentstorm_worker/runner.py:504-510 | each attempt ends as the environment says unless it starts past the deadline; then it is an ambiguous timeout |
| `Retry.ClockIsElapsed` | worker/src/agentstorm_worker/runner.py:271-368 | the time of an attempt is the wait before the case, all earlier attempts, all backoffs and what they overran |
| `Retry.RetryBudgets` | worker/src/agentstorm_worker/runner.py:280-368 | attempts are numbered 1..n with n at most max_attempts, backoffs are bounded each, in sum and by the deadline, and a probe makes one attempt |
| `ChatLoop.Ledger.NoteRetryable` | worker/src/agentstorm_worker/adapters/openai_compatible.py:346-347 | a 429 is recorded with its code and changes no token or call total |
| `ChatLoop.Ledger.AddUsage` | worker/src/agentstorm_worker/adapters/openai_compatible.py:349-354 | measured usage is added, missing usage makes the totals unknown |
| `ChatLoop.Ledger.ChargeUnknownCall` | worker/src/agentstorm_worker/adapters/openai_compatible.py:356-367 | the allowance is added unless the totals are unknown |
| `ChatLoop.ExecuteTools` | worker/src/agentstorm_worker/adapters/openai_compatible.py:620-688 | calls are answered in order up to the first that cannot be, whose failure is reported; `ChatOutcomes.HandlerOutputsSent` says what is sent |
| `ChatLoop.PostWithRetry` | worker/src/agentstorm_worker/adapters/openai_compatible.py:545-564 | the same request is posted, with the delays of a run in between, until a reply other than 429 or the last try |
| `ChatLoop.StatusError` | worker/src/agentstorm_worker/adapters/openai_compatible.py:803-847 | each status maps to its error with kind and provider code, and is charged exactly when its cost is unknown |
| `ChatLoop.TakeCompletion` | worker/src/agentstorm_worker/adapters/openai_compatible.py:496-536 | a completion ends the run with its outcome or leaves the conversation ready for the next post |
| `ChatLoop.TakeReply` | worker/src/agentstorm_worker/adapters/openai_compatible.py:478-536 | a missing response, a cancellation and every status end the run with their outcome; a completion is taken |
| `ChatLoop.Run` | worker/src/agentstorm_worker/adapters/openai_compatible.py:460-543 | the loop terminates, its log is one the rules allow and do not continue, and the outcome is the one its last reply calls for |
| `ChatTheorems.PostsBounded` | worker/src/agentstorm_worker/adapters/openai_compatible.py:468-564 | at most max_model_calls x max_http_attempts posts |
| `ChatTheorems.RequestsWellFormed` | worker/src/agentstorm_worker/adapters/openai_compatible.py:509-515 | every request is the opening and complete turns, each call answered once, in order and under its own id; a post after a 429 repeats its request |
| `ChatTheorems.RequestsGrow` | worker/src/agentstorm_worker/adapters/openai_compatible.py:545-564 | later requests extend earlier ones: no turn is dropped |
| `ChatOutcomes.FirstRequest` | worker/src/agentstorm_worker/adapters/openai_compatible.py:462-465 | the first request is the instructions, if any, and the prompt, and the replies are the endpoint's in order |
| `ChatOutcomes.HandlerOutputsSent` | worker/src/agentstorm_worker/adapters/openai_compatible.py:509-515 | a post after a completion adds the completion and, for each call in order, what the handler of that very call returned, under the id of the call |
| `ChatOutcomes.GoesOnExactlyWhen` | worker/src/agentstorm_worker/adapters/openai_compatible.py:468-564 | the loop posts again after a 429 unless the attempts are used up, and after a completion exactly when it asks for tools, model calls are left and every tool answered |
| `ChatOutcomes.AnswerExactlyWhen` | worker/src/agentstorm_worker/adapters/openai_compatible.py:516-536 | a run ends in an answer exactly when its last reply is a completion without tool calls that has text, not blank if it was cut off; the answer is that text, with the tool calls of the whole run |
| `ChatOutcomes.StatusOutcome` | worker/src/agentstorm_worker/adapters/openai_compatible.py:803-847 | code, kind, provider code, and that an error is safe to retry exactly for 429 and ambiguous exactly outside 4xx or for 408 |
| `ChatOutcomes.ChargedExactlyWhen` | worker/src/agentstorm_worker/adapters/openai_compatible.py:782-847 | a run charges an unknown call exactly when its last post got no response or a status outside 200 and 4xx, or 408, and is then ambiguous |
| `ChatOutcomes.ToolOutcome` | worker/src/agentstorm_worker/adapters/openai_compatible.py:509-512 | spent model calls end the run as max_turns_exceeded; otherwise the first unanswered call decides between model_behavior, tool_error, the handler's own error and cancellation |
| `ChatOutcomes.OtherOutcome` | worker/src/agentstorm_worker/adapters/openai_compatible.py:496-530 | how a run ends on no response, an interruption, an unusable body, and a completion without text |
| `ChatOutcomes.LimitsInOrder` | worker/src/agentstorm_worker/adapters/openai_compatible.py:346-347 | the rate limits reported are the 429 replies in order, with their codes |
| `ChatTheorems.OnlyTheLastIsUnknown` | worker/src/agentstorm_worker/adapters/openai_compatible.py:782-800 | at most one unknown call is charged in a run, and only for its last reply |
| `ChatTheorems.TokensReported` | worker/src/agentstorm_worker/adapters/openai_compatible.py:369-387 | tokens are reported exactly when every completed call gave its usage, and are then the measured sum plus one allowance exactly if the last reply's cost is unknown; the completeness flag of an error says the same |
| `ChatTheorems.DelayBounds` | worker/src/agentstorm_worker/adapters/openai_compatible.py:272-279 | a wait is between zero and the maximum, honours a Retry-After within it, and never shrinks without one |
| `ChatOutcomes.DelayExactly` | worker/src/agentstorm_worker/adapters/openai_compatible.py:272-279 | without a Retry-After the wait starts at the initial delay and doubles up to the maximum; a Retry-After is obeyed from zero up to the maximum |
| `ChatOutcomes.WaitBetweenPosts` | worker/src/agentstorm_worker/adapters/openai_compatible.py:549-564 | the loop waits only between posts, only after a 429, and by the number of 429s in a row |
| `ChatTheorems.SleptBounded` | worker/src/agentstorm_worker/adapters/openai_compatible.py:558-564 | a run sleeps at most the maximum delay for each 429 it met |
| `Texts.Utf8LengthIsEncoded` | internal/results/service.go:721-723 | the length the text checks compare is that of the UTF-8 encoding, from which every character can be read back |
| `Uploads.CheckAttempts` | internal/results/service.go:551-611 | the attempt loop accepts exactly the cases whose attempts are valid in number, labels and measurements and add up as unbounded integers |
| `Uploads.CheckCases` | internal/results/service.go:513-642 | the case loop accepts exactly the lists of valid cases |
| `Uploads.CheckTools` | internal/results/service.go:613-620 | at most a thousand tool names, none blank, too long or with a NUL |
| `Uploads.CheckAssertions` | internal/results/service.go:621-633 | at most a hundred assertions, numbered and named, and whether one failed |
| `Uploads.SumUp` | internal/results/service.go:576-592 | the guarded 64-bit sums are the unbounded ones, and are refused exactly when they do not fit |
| `Uploads.CheckSummary` | internal/results/service.go:661-680 | the summary is accepted exactly when it matches the totals |
| `Uploads.ValidateShard` | internal/results/service.go:480-682 | the check accepts exactly the documents that are valid in every label, text and measurement and agree as unbounded integers, despite 64-bit arithmetic |
| `Uploads.SucceededCountIsUnchecked` | internal/results/service.go:493-498 | an accepted document stays accepted under every other split into succeeded and failed |
| `AcceptedUploads.AcceptedDocument` | internal/results/service.go:480-512 | an accepted document names its run and shard, counts its cases, and repeats no pair of case and iteration |
| `AcceptedUploads.AcceptedCase` | internal/results/service.go:513-642 | every case of it is named, measured and labelled; a failed one names its kind, a failed assertion is no success, and kind "assertion" has one |
| `AcceptedUploads.AcceptedParts` | internal/results/service.go:551-633 | its attempts are numbered from one, measured and labelled, its assertions numbered from zero and named |
| `AcceptedUploads.AttemptsAddUp` | internal/results/service.go:576-611 | a case that lists attempts reports the sum of each of their counts, model calls exactly when all of theirs are known, and completeness exactly when none is incomplete |
| `AcceptedUploads.CasesAddUp` | internal/results/service.go:643-680 | the summary reports the sums over its cases in the same way |
| `AcceptedUploads.DefaultsFilled` | internal/results/service.go:278-327 | normalising changes only omitted flags and the labels of failures without a category, by their kind, and keeps a code that was given |
| `Uploads.NormalizeShard` | internal/results/service.go:278-327 | the loop fills in the defaults of every case and attempt and changes nothing else |
| `Uploads.NormalizeIdempotent` | internal/results/service.go:278-327 | normalising twice is normalising once |
| `Uploads.NormalizeKeepsCounts` | internal/results/service.go:278-327 | normalising keeps case identities and totals |
| `Uploads.NormalizeKeepsValidity` | internal/results/service.go:278-327 | normalising keeps the validity of every case, both ways |
| `Uploads.NormalizedStaysAccepted` | internal/results/service.go:279-281 | an accepted document is still acceptable after normalisation exactly when the summary flag was given or every case is complete |
| `Uploads.UnsaidUsageIsStoredComplete` | internal/results/service.go:279-281 | an accepted document with an incomplete case whose stored summary says complete |
| `RunnerAccounting.AttemptTotals` | worker/src/agentstorm_worker/runner.py:663-677 | the API's running totals over the attempts are the worker's sums, unknown model calls and completeness included |
| `RunnerAccounting.CaseTotals` | worker/src/agentstorm_worker/runner.py:713-753 | the API's running totals over the cases are the worker's summary |
| `RunnerAccounting.CaseAccountingAgrees` | worker/src/agentstorm_worker/results.py:229-301 | every case the runner builds satisfies the attempt-to-case equations |
| `RunnerAccounting.RunnerAccountingAgrees` | worker/src/agentstorm_worker/results.py:143-173 | every result list the runner builds satisfies the case-to-summary equations |
| `RunnerAccounting.SummaryCounts` | worker/src/agentstorm_worker/runner.py:699-701 | succeeded counts the results whose evaluators ran and all passed, failed the others |
| `RunnerAccounting.CaseReported` | worker/src/agentstorm_worker/results.py:229-301 | what is sent of a result: identity, measurements, the labels of its error or failed verdict, attempts and verdicts in order, and content only with sensitive results included |
| `RunnerAccounting.DecisionRoundTrip` | worker/src/agentstorm_worker/results.py:253-253 | every retry decision can be read back from its text |
| `RunnerAccounting.RunnerUploadAccepted` | worker/src/agentstorm_worker/results.py:143-173 | a runner's upload is accepted exactly when run and shard are nameable, it is not too long, repeats no case and every result is reportable: case id, tool names, texts, labels, at most 100 assertions, and no execution error of blank kind or kind "assertion" |
| `RunnerAccounting.SpentTurnsIsRefused` | worker/src/agentstorm_worker/adapters/openai_compatible.py:537-543 | the result of spent turns adds up and is refused, whatever the run, shard and case |
| `RunnerAccounting.LoopNumbersAttempts` | worker/src/agentstorm_worker/runner.py:280-368 | the retry loop numbers attempts as the check requires |
| `Pricing.RoundedQuotient` | internal/results/pricing.go:10-18 | a cost is within half a unit of the exact one, with the tie rule of each service |
| `Pricing.RoundingsDisagreeExactlyAtEvenTies` | worker/src/agentstorm_worker/pricing.py:11-15 | both services agree except at exact ties above an even twelfth digit, where the Result API is one unit higher |
| `Pricing.SumOfRoundedCosts` | internal/results/pricing.go:10-51 | n rounded costs sum to within (n+1)/2 units of the rounded cost of all their tokens |
| `Pricing.RoundingDriftIsReal` | internal/results/pricing.go:10-51 | the two do differ |
| `EndToEnd.WorkerUploadsItsSlice` | worker/src/agentstorm_worker/results.py:143-173 | a worker whose pool was not stopped and did not raise uploads each item of its slice exactly once |
| `EndToEnd.StoredPermutesUploaded` | internal/results/postgres.go:657-720 | the stored cases are a permutation of all uploaded cases |
| `EndToEnd.EveryItemStoredOnce` | internal/results/postgres.go:657-720 | each dataset case of each iteration is stored exactly once |
| `EndToEnd.TotalsMatchSummaries` | internal/results/postgres.go:746-817 | sums over the stored rows are the sums of the shard summaries: cases, tokens, tool calls and, when reported, model calls |
| `EndToEnd.CallsKnownExactlyWhen` | internal/results/postgres.go:772-772 | a complete run's model calls are known exactly when it stores a case and every shard with cases reported its own |
| `EndToEnd.CompleteRunHoldsTheDataset` | internal/results/postgres.go:746-919 | for any shard count and interleaving a complete run of full slices stores cases times iterations, each once, with the aggregate over them and all totals its shards reported |
| `EndToEnd.RunCostTracksTokens` | internal/results/postgres.go:746-817 | in every reachable state with a known cost, each cost of the aggregate is within (n+1)/2 units of pricing the aggregate's own tokens of that kind |
| `Paging.SelectRows` | internal/results/postgres.go:1053-1064 | the ordered, limited selection |
| `Paging.ListCases` | internal/results/postgres.go:1037-1120 | a page from one row more than the limit, with the cursor of its last case if there is more, or an error for an unusable cursor |
| `Paging.PageMeaning` | internal/results/postgres.go:1053-1120 | a page holds stored cases that pass the filter after the cursor, by case and iteration, skips nothing up to its next cursor, and has one exactly when more cases are left than fit |
| `Paging.InvalidExactlyWhen` | internal/results/postgres.go:1046-1052 | a cursor is refused exactly when it names no case |
| `Paging.ListAllCases` | integrations/promptfoo/client.py:50-75 | against a store that grows between requests the client terminates without its repeated-cursor error, lists by case and iteration, includes everything present at the start that passes the filter and nothing that is not stored, and against an unchanged store returns the sorted filtered list, for every limit |
| `Paging.CursorAdvances` | integrations/promptfoo/client.py:69-75 | the next cursor is new and leaves fewer cases to visit |
| `Listings.RequestsSeeGrowingStores` | internal/results/postgres.go:1037-1064 | page requests at any times of any run of steps see stores that only grow, which is what the client is proved against |

## Left out

- SQL isolation levels, row-lock waits, transaction-start time and migrations: transactions are atomic steps.
- Hash functions, random tokens, JSON and gzip encoding, HTTP handlers, authorisation, metrics.
- Kubernetes reconciliation, job building and autoscaling.
- The worker's permit client and the cancellation of asynchronous tasks; a stop is an event of the model.
- Percentiles, rates, thresholds and latencies of the aggregate and of the worker's summary, and run comparison.
- Evaluators, telemetry, redaction, fault injection, the other adapters and exception classification.
- Configuration and registration field checks, and the text checks of claim, renew, terminate and permit requests: they add single-branch members only.
- Uploads.NormalizeShard: absent and empty lists are one value; the source replaces one by the other before anything compares them.
- ShardStore keeps no lease count or update time, and token sums are unbounded where the database column is 64-bit.
- Pricing.RoundedQuotient: prices are given in units of 10^-12 USD per million tokens; parsing of decimal strings, and the worker's default decimal context of 28 digits when it adds two costs, are not modelled.
- Retry.ExecuteAttempts: real arithmetic stands for floating point, and the jitter draw for the hash it comes from.
- ChatLoop.Run: a cancellation during a wait is not told apart from one during the post that follows; the finish reason in the metadata is not modelled; `HandlerFailed` stands for an execution error raised by a tool handler itself, whose usage is the handler's own.
- Paging.ListAllCases: cursor encoding is the identity, and replies of the wrong shape are not modelled.
- Permits.RateBound: the clock of the model never goes back.
- RunnerAccounting.CaseReported: the ambiguous flag that an attempt also carries is not part of the model; nothing modelled here reads it.
