# Verification model of the job platform's shared-state protocols

The platform's workers, schedulers, API service and dashboard coordinate through Redis, PostgreSQL and timers. This
project models those protocols as atomic steps (one Lua script, one `MULTI` pipeline or one row update each) and proves
what every interleaving of the steps keeps. `dafny verify dfyconfig.toml` checks everything.

How it is organised:

- **Lease broker** — `Redis` (sorted sets, batches in score order), `Domain` (jobs, states, both backoffs), `BrokerSpec`
  (each script as a function on the whole state, and runs of steps), `Broker` (the class whose fields are the Redis
  keys; every method is proved to do what its function says), then the theorems: `Stranded`, `Partition`,
  `PartitionRuns`, `Fencing`, `Attempts`, `Exclusion` (leases never overlap in time), `Resubmission` (what a hash
  overwritten as blocked can still lead to), `Filing` (where jobs are put and who is served first), `Cancellation`,
  `Hashes` (what every hash and dead-letter list says). `Submission` says which jobs enter the broker.
- **Worker** — `Worker`: what a worker does around a handler, and what follows across broker, limiter and worker.
- **Rate and concurrency limiter** — `LimiterSpec`, `Limiter` (the class, clean denial, exact retry time) and
  `LimiterRuns` (window and slot bounds over runs, and what a whole store keeps).
- **Fan-in** — `FanIn`: one worker's scan as methods, and the concurrent protocol around it; `Dependents` joins it with
  the broker.
- **Schedulers** — `Leadership` and `Cron`.
- **Idempotent submission** — `Idempotency`.
- **Dashboard** — `TransportSpec` and `Transport` (the connection ladder), `Canonical` (stable serialization) and
  `Stabilize` (reuse of unchanged data).

## What the proofs found

Each of these is a lemma below. The code is modelled as it is; where a property fails, a lemma says exactly when it holds.

- A replay does not look where the job is. Replaying a job that is live lists it twice
  (`Partition.RetryExact`, `PartitionRuns.ReplayOfQueuedJobDuplicates`); nothing is ever stranded, though.
- The worker's backoff converts a float to int64 and forgets the cap for attempts of zero and below; it agrees with the
  recovery script exactly when the doubled base is representable, or the machine happens to convert an unrepresentable
  value to one at or above the cap (`Backoff.BackoffsAgree`, `Backoff.BackoffOverflows`).
- Two grants of one job to one worker within a millisecond share a token, as a replay can bring about; fencing holds
  exactly if no two grants of the job do (`Fencing.TwinGrantRun`, `Fencing.FencingIsExact`).
- A replay that moves a failed job to another queue leaves its old dead-letter entry behind, and only such a replay does
  (`Hashes.ReplayDeadLettersExact`).
- A requested cancel of an active job takes effect when its lease is recovered, but a worker's failure report ignores it
  and retries the job (`Worker.FailureAgreesWithRecovery`).
- A job whose dependency list holds only empty ids or itself is stored blocked with no edges (`Submission.Submit`).
- The service hands the blocked job to the broker after storing its edges. If that comes after a wake-up, it overwrites
  the hash, and the broker can still run the job without another wake-up exactly if the first one left it in the delayed
  set or under a lease (`Dependents.LateSubmissionExact`, `Dependents.LateSubmissionIsFinal`,
  `Dependents.LateSubmissionLosesTheWakeUp`).
- A job stored after the scans of its dependencies is never woken (`FanIn.WokenIffListedAfterCommit`,
  `FanIn.StoredLastIsNeverWoken`). Lease recovery that dead-letters a dependency, and a cancel, do not scan dependents; a
  job stored first is certain to be woken exactly if every dependency ends under a worker that scans
  (`FanIn.WakesExactlyIfAllScan`).
- A job can be woken twice exactly if two of its dependencies' workers scan; the second wake-up hands in a live job, and
  lists it twice unless it only renews its delayed entry (`FanIn.WokenOnceExactly`, `Dependents.SecondWakeUpExact`).
- Rollback errors are ignored. An evaluation that ends with an error leaves a new member exactly where a policy admitted
  the job and its rollback failed too, or where its script took effect without an answer (`Limiter.FaultIsExact`).
- A rolled-back concurrency slot is dropped even if the job held it before the call (`Limiter.DenialIsClean`,
  `Limiter.DenialCostsASlot`).
- An admission's name comes back after an operator replay, and a name counts once. The window bound holds in all runs
  exactly if names stay away for a whole window, or the limit is one (`LimiterRuns.WindowBoundIsExact`).
- A shorter lease TTL makes a whole slot set expire. The slot bound holds in all runs exactly if the TTLs are within one
  millisecond of each other, or the limit is one (`LimiterRuns.SlotBoundIsExact`).
- A scheduler that loses the reply to its first successful election attempt forgets the token and locks itself out until
  the key expires (`Leadership.ForgottenTokenLocksOut`).
- `next_run_at` advances with every dispatch exactly if no pass lasts longer than half the claim's life
  (`Cron.PassBoundIsExact`).
- Starting a connected transport manager again can lose track of a timer (`Transport.SecondStartTracksIff`).
- `reuseList` does not notice a pure reordering (`Stabilize.FaithfulExact`, `Stabilize.ReorderingIsDropped`), and
  `sortValue` drops a `__proto__` key (`Canonical.ProtoIsForgotten`).

## Model

| member | source | states |
|---|---|---|
| Redis.DueIdsExact | libs/backend/queue/redis.go:121-128 | a ZRANGEBYSCORE batch holds due members only, earliest first with ties in member order, each once, as many as the limit allows, and never skips an earlier one for a later one |
| Broker.RedisBroker.EnqueueOne | libs/backend/queue/redis.go:271-283 | the pipeline writes the hash and files the id as blocked, delayed or ready, in that order of precedence |
| Broker.RedisBroker.EnqueueMany | libs/backend/queue/redis.go:285-303 | a batch equals its enqueues one after the other at one instant |
| Broker.RedisBroker.DequeueScript | libs/backend/queue/redis.go:17-53 | one pop per list, highest list first; the first leasable id is leased and all popped ids before it are gone |
| Broker.RedisBroker.DequeueFrom | libs/backend/queue/redis.go:316-340 | a worker's dequeue runs the script over exactly the key list of its queues, and returns what the script granted; Filing.HighestPriorityFirst says who that is |
| Broker.ReadyKeysForQueues | libs/backend/queue/redis.go:631-642 | the method builds the key list the dequeue takes; Filing.HighestPriorityFirst says what its order means |
| Broker.RedisBroker.HeartbeatScript | libs/backend/queue/redis.go:55-67 | refused unless the token matches and the job is active; otherwise hash and lease set get the same new expiry |
| Broker.RedisBroker.CompleteScript | libs/backend/queue/redis.go:69-86 | refused on another token; otherwise the job is completed and its lease and token are gone |
| Broker.RedisBroker.FailScript | libs/backend/queue/redis.go:88-119 | with a retry time the job waits in delayed; without one it is failed and in the dead letters of the caller's queue |
| Broker.RedisBroker.ThrottleScript | libs/backend/queue/redis.go:206-223 | the job waits in delayed as throttled, its attempt stays spent |
| Broker.RedisBroker.ActivateDueScript | libs/backend/queue/redis.go:121-143 | the batch loop equals activating the due ids one after the other |
| Broker.RedisBroker.RecoverLease | libs/backend/queue/redis.go:154-199 | one expired lease is cancelled, retried after the doubled delay, or dead-lettered |
| Broker.RedisBroker.RecoverExpiredScript | libs/backend/queue/redis.go:145-204 | the batch loop, with one record per recovered hash as the Go side reads it |
| Broker.RedisBroker.Replay | libs/backend/queue/redis.go:469-499 | an operator retry resets the hash and lists the id again, touching only its own queue's dead letters |
| Broker.RedisBroker.CancelLoaded | libs/backend/queue/redis.go:501-521 | the second half of a cancel, deciding on the copy loaded before |
| BrokerSpec.Heartbeat | libs/backend/queue/redis.go:55-67 | a refused heartbeat changes nothing; an accepted one leaves the lease score equal to the hash's expiry |
| BrokerSpec.Complete | libs/backend/queue/redis.go:69-86 | a refused completion changes nothing; an accepted one ends lease and token |
| BrokerSpec.Fail | libs/backend/queue/redis.go:88-119 | a refused failure report changes nothing; an accepted one ends lease and token |
| BrokerSpec.Throttle | libs/backend/queue/redis.go:206-223 | a refused throttle changes nothing; an accepted one ends lease and token |
| Stranded.StepKeeps | libs/backend/queue/redis.go:17-223 | every broker step, unguarded replay and stale cancel included, leaves every job where its state says it is |
| Stranded.NoJobIsEverStranded | libs/backend/queue/redis.go:17-521 | in every state of every run: queued jobs are in their list or delayed, waiting jobs are in delayed at their run_at, active jobs have a token and a lease score equal to lease_expires_at, failed jobs are in a dead-letter list |
| Partition.EnqueueExact | libs/backend/queue/redis.go:271-283 | an enqueue keeps "live ids once, others never" if and only if the id was not live or its delayed entry is reused |
| Partition.RetryExact | libs/backend/queue/redis.go:469-499 | a replay keeps the partition if and only if the id was not live or its delayed entry is reused |
| Partition.CancelExact | libs/backend/queue/redis.go:501-521 | a cancel on a loaded copy keeps the partition if and only if the job has neither become active nor moved to another list since |
| Partition.InReady | libs/backend/queue/redis.go:631-642 | in a partitioned store a ready entry belongs to a queued job of that queue and priority |
| PartitionRuns.DequeueExact | libs/backend/queue/redis.go:17-53 | in a partitioned store a dequeue takes the head of the first non-empty list and discards nothing; it returns nil only if all lists are empty |
| PartitionRuns.ActivateOneExact | libs/backend/queue/redis.go:129-141 | activation moves one entry from delayed to the head of the job's own list |
| PartitionRuns.ActivateDueExact | libs/backend/queue/redis.go:121-143 | ActivateDue activates exactly the earliest due ids within the limit, each once, conserves all counts, and leaves none due when the limit covers them |
| PartitionRuns.RecoverOneExact | libs/backend/queue/redis.go:154-199 | one recovery removes one lease and reports where the job now is |
| PartitionRuns.RecoverExpiredExact | libs/backend/queue/redis.go:145-204 | RecoverExpired recovers exactly the earliest expired leases within the limit; each record's state and retry time match hash and delayed set |
| PartitionRuns.CompleteExact | libs/backend/queue/redis.go:69-86 | a completion keeps the partition if and only if it is refused, carries a real token, or finds a job that is not live |
| PartitionRuns.FailExact | libs/backend/queue/redis.go:88-119 | so does a failure report, for which with a retry time a delayed entry also serves |
| PartitionRuns.ThrottleExact | libs/backend/queue/redis.go:206-223 | so does a throttle |
| PartitionRuns.StepKeepsPartition | libs/backend/queue/redis.go:17-521 | every disciplined step keeps the partition |
| PartitionRuns.PartitionHolds | libs/backend/queue/redis.go:17-521 | in every disciplined run every live id occurs exactly once across ready, delayed and leases, every other id never |
| PartitionRuns.ReplayOfQueuedJobDuplicates | libs/backend/queue/redis.go:469-499 | without the discipline: replaying a queued job lists it twice |
| Filing.EnqueueFiles | libs/backend/queue/redis.go:271-283 | a blocked job is in no list, a waiting or future one in the delayed set at its time, a queued due one at the head of its own list |
| Filing.BatchAppends | libs/backend/queue/redis.go:285-303 | a batch is filed job by job, first to last |
| Filing.ReplayFiles | libs/backend/queue/redis.go:469-499 | where a replay puts the job, what its hash then says, and that it leaves every dead-letter entry but the job's own in its queue |
| Filing.GrantActs | libs/backend/queue/redis.go:17-53 | in any store a grant spends one attempt and leaves an active hash with worker, token and expiry, clearing a throttle time and nothing else |
| Filing.CompletionActs | libs/backend/queue/redis.go:69-86 | in any store, when a completion is taken, what its hash then says and what stays |
| Filing.FailureActs | libs/backend/queue/redis.go:88-119 | in any store, when a failure report is taken, what its hash then says and where the job goes |
| Filing.ThrottleActs | libs/backend/queue/redis.go:206-223 | in any store, when a throttle is taken, what its hash then says and where the job goes |
| Filing.HeartbeatActs | libs/backend/queue/redis.go:55-67 | a heartbeat is taken if and only if token and state match, and moves hash and lease set to one expiry |
| Filing.ActivationActs | libs/backend/queue/redis.go:129-141 | in any store, what an activation clears, keeps and lists |
| Filing.RecoveryActs | libs/backend/queue/redis.go:154-199 | in any store, whether a recovery cancels, retries or fails the job, and what else it writes |
| Filing.RecoveryWaits | libs/backend/queue/redis.go:167-176 | a recovered job waits between the base delay and the cap, after its first attempt exactly the base |
| Filing.HighestPriorityFirst | libs/backend/queue/redis.go:631-642 | a granted job heads its list, and nothing of a higher priority in its queue, nor anything in the queues named before, was ready; nobody is granted anything if and only if all ten lists of every named queue (critical, default and low if none is named) are empty |
| Filing.DequeueTakes | libs/backend/queue/redis.go:17-53 | in any store the grant is the head of the first list whose head is queued, retrying or scheduled, the heads before it are discarded, and nothing else is touched |
| Cancellation.CancelActs | libs/backend/queue/redis.go:501-521 | a cancel always raises the flag; seen queued, waiting, failed or blocked, the job is cancelled and taken out of its list, the delayed set and its dead letters; otherwise nothing else changes |
| Cancellation.StepKeepsFlag | libs/backend/queue/redis.go:17-223 | no step but a new enqueue or replay of the job lowers the flag |
| Cancellation.CancelIsHonoured | libs/backend/queue/redis.go:145-204 | until the job is enqueued or replayed anew the flag stays, and a recovery of its lease ends it as canceled and never retries it |
| Hashes.HashesTellState | libs/backend/queue/redis.go:17-521 | in every careful run finishing time, lease expiry, throttle time and worker follow from the state, and a queue's dead letters are exactly its failed jobs |
| Hashes.HashesStayPlain | libs/backend/queue/redis.go:17-521 | in every run, disciplined or not, lease expiry means active, and worker and token are kept only where the state allows |
| Hashes.ReplayDeadLettersExact | libs/backend/queue/redis.go:496-496 | a replay keeps the dead letters true if and only if it does not move a failed job to another queue |
| Fencing.TokenMoves | libs/backend/queue/redis.go:17-223 | a step sets a job's token by granting, empties it by clearing, and otherwise leaves token, attempts, limit and queue alone |
| Fencing.AcksWithinGrants | libs/backend/queue/redis.go:69-119 | accepted acknowledgements of a job never outnumber its grants, in any run |
| Fencing.TokenIsLatestGrant | libs/backend/queue/redis.go:24-53 | the hash holds a token if and only if it is that of a grant nothing has ended since |
| Fencing.FencedAck | libs/backend/queue/redis.go:69-119 | if no two grants of the job share a token, the holder of a grant is acknowledged if and only if no acknowledgement, recovery, activation, replay, enqueue or later grant has touched the job since |
| Fencing.FencingIsExact | libs/backend/queue/redis.go:24-53 | every grant of a job is fenced at all times if and only if no two of its grants share a token |
| Fencing.TwinGrantUnfences | libs/backend/queue/redis.go:25-25 | a later grant with the same token lets the earlier holder through |
| Fencing.TwinGrantRun | libs/backend/queue/redis.go:469-499 | a run in which a replay within one millisecond gives two grants of a job the same token |
| Fencing.WorkerCopyIsCurrent | libs/backend/worker/runtime.go:234-260 | a worker whose acknowledgement is accepted decided on the attempts, limit and queue still in the hash |
| Fencing.EmptyTokenIsNoFence | libs/backend/queue/redis.go:69-86 | the scripts take an empty token on a job without a lease; no caller passes one, and the three lemmas named Exact for acknowledgements say what it would do |
| Attempts.StepBalances | libs/backend/worker/runtime.go:234-260 | each step keeps grants, throttles and retries in balance with the attempts counter |
| Attempts.BoundedExecution | libs/backend/worker/runtime.go:234-260 | attempts equals grants, at most maxAttempts - 1 retries by workers and recoveries together, at most maxAttempts grants that are not throttled |
| Attempts.BlockedIsNeverLeased | libs/backend/queue/redis.go:271-283 | a job submitted as blocked is in no list and is never granted before an enqueue or replay releases it, in any run |
| Exclusion.StepMovesLease | libs/backend/queue/redis.go:17-223 | a step begins a lease by a grant, extends it by an accepted heartbeat, ends it by an acknowledgement or once it has run out, and otherwise leaves it |
| Exclusion.LeasesAreDisjoint | libs/backend/queue/redis.go:17-204 | mutual exclusion in time: the intervals of two grants of one job, from grant or accepted heartbeat for its worker's TTL, cut at the acknowledgement, never overlap |
| Resubmission.StepLeavesLost | libs/backend/queue/redis.go:17-223 | a blocked, cancelled or failed job that is neither delayed nor under a renewable lease stays so and is never granted until it is handed in again |
| Resubmission.ListedRuns | libs/backend/queue/redis.go:17-53 | a leasable job in its own list is leased after finitely many dequeues of its queue |
| Resubmission.BlockedAgainExact | libs/backend/queue/redis.go:121-204 | a job overwritten as blocked can still be leased without being handed in again if and only if it is in the delayed set, or in the lease set with attempts left and no cancel |
| Worker.Runtime.HandleFailure | libs/backend/worker/runtime.go:234-342 | retries while the copy's attempts last, after the worker's backoff, else fails; what it marks and scans is Worker.EffectsExact |
| Worker.Runtime.Throttle | libs/backend/worker/runtime.go:461-494 | requeues as throttled and marks the row only if the broker accepted |
| Worker.Runtime.Admit | libs/backend/worker/runtime.go:92-128 | the handler runs if and only if there are no policies or all of them allow; otherwise the job is throttled until the limiter's time, or one heartbeat interval on a limiter error, and marked so only if the broker accepted; the limiter is left as the evaluation, its error and its rollback leave it |
| Worker.Runtime.Consult | libs/backend/worker/runtime.go:103-115 | the three ways an evaluation ends, and the limiter's keys after each |
| Worker.Runtime.Conclude | libs/backend/worker/runtime.go:171-231 | after the handler: acknowledge, then mark, then scan, and give the slots back in every case, as far as Redis answers |
| Worker.EffectsExact | libs/backend/worker/runtime.go:191-342 | a refused acknowledgement has no effects; an accepted one marks the row unless that fails, and is followed by a scan if and only if it ended the job, directly after the mark |
| Worker.WorkerFollowsFanIn | libs/backend/worker/runtime.go:191-231 | a worker that ends a dependency acts as the fan-in assumes, Finish before List, if and only if its mark is stored |
| Worker.WorkerReportsAreBudgeted | libs/backend/worker/runtime.go:242-249 | a failure report on a copy loaded after the grant is, if accepted, one whose retry decision matches the hash |
| Worker.WorkerRunIsBudgeted | libs/backend/worker/runtime.go:234-260 | in a run whose failure reports come from copies loaded after a grant, every retry decision matches the hash |
| Worker.WorkersAreBounded | libs/backend/worker/runtime.go:234-260 | in such a run attempts equals grants, at most maxAttempts - 1 retries, at most maxAttempts grants that are not throttled |
| Worker.FailureAgreesWithRecovery | libs/backend/worker/runtime.go:242-249 | a failure report and the recovery of an expired lease leave the job in the same place, state and time if and only if no cancel was requested and the worker's delay does not overflow |
| Worker.DelaysAgree | libs/backend/domain/job.go:197-206 | the delays in whole milliseconds agree under the same exact condition |
| Worker.ThrottledUntilAdmissible | libs/backend/worker/runtime.go:104-115 | a throttled job becomes due if and only if the limiter would admit its next attempt, other traffic aside |
| Backoff.BackoffsAgree | libs/backend/domain/job.go:197-206 | the worker's and the recovery script's delays agree if and only if the doubled base is representable (for attempts of zero and below: the base is within the cap) |
| Backoff.BackoffOverflows | libs/backend/domain/job.go:201-205 | a concrete attempt number from which the worker's delay is negative |
| Backoff.RecoveryDelayGrows | libs/backend/queue/redis.go:167-176 | the delay never shrinks, lies between min(base, cap) and cap, and stays at the cap |
| Backoff.RecoveryDelayDoubles | libs/backend/queue/redis.go:167-176 | the first delay is the base, and each attempt doubles it, up to the cap |
| Submission.BuildJob | libs/backend/service/service.go:336-385 | every built job may be enqueued; it runs at the latest of now, its delay and its schedule, with the defaults for queue, priority and attempts; its state says whether it waits for dependencies, for its time, or not at all |
| Submission.SanitizeDependencies | libs/backend/service/service.go:419-433 | each named dependency once, in order of first mention, without empty ids and without the job itself |
| Submission.Submit | libs/backend/service/service.go:55-137 | a job is blocked without a stored edge if and only if its request names only empty dependencies or itself |
| LimiterSpec.Applicable | libs/backend/limits/redis.go:244-268 | the enabled policies whose scope covers the job, and no others |
| Limiter.ApplicablePolicies | libs/backend/limits/redis.go:244-268 | the loop computes that selection |
| Limiter.ApplicableExact | libs/backend/limits/redis.go:244-268 | a policy is asked if and only if it is enabled and global, or for the job's queue, type or tenant |
| Limiter.RateAdmissionExact | libs/backend/limits/redis.go:16-29 | a rate policy admits if and only if fewer than its limit of admissions are younger than windowSeconds; it records job and attempt from now, or names the time the oldest leaves the window |
| Limiter.SlotAdmissionExact | libs/backend/limits/redis.go:36-55 | a concurrency policy admits if and only if the job holds a slot or fewer than the limit do; the slot lasts for the TTL, or the time the first one runs out is named |
| Limiter.RenewalOfSlotExact | libs/backend/limits/redis.go:57-65 | a slot is renewed for the TTL if and only if it has not run out |
| Limiter.AllowedIsCounted | libs/backend/limits/redis.go:98-140 | an allowed evaluation leaves the job counted by every applicable policy |
| Limiter.RedisLimiter.AcquireScript | libs/backend/limits/redis.go:16-55 | the two acquire scripts, on one key and no other |
| Limiter.RedisLimiter.Rollback | libs/backend/limits/redis.go:212-219 | drops the job's member from the keys of the acquired policies, except where the script fails, which is ignored |
| Limiter.RedisLimiter.EvaluateAndAcquire | libs/backend/limits/redis.go:98-140 | asks every applicable policy and keeps the acquisitions only if all allow; a Redis error, whether or not its script took effect, undoes what is known to be acquired, as far as the rollback works |
| Limiter.RedisLimiter.RenewScript | libs/backend/limits/redis.go:57-65 | renews only a slot that survives pruning |
| Limiter.RedisLimiter.Renew | libs/backend/limits/redis.go:142-153 | renews under the applicable concurrency policies, up to the first error |
| Limiter.RedisLimiter.Release | libs/backend/limits/redis.go:155-165 | gives back under the applicable concurrency policies, up to the first error |
| Limiter.RenewalExact | libs/backend/limits/redis.go:142-153 | renewal renews exactly the named keys and never adds a member to any |
| Limiter.ReleaseExact | libs/backend/limits/redis.go:155-165 | release takes the job's slot out of every applicable slot set it reaches and leaves all other keys alone |
| Limiter.Verdict | libs/backend/limits/redis.go:98-140 | the decision is the conjunction of the verdicts each policy would give on its own; its retry time is the latest any denial named |
| Limiter.DenialIsClean | libs/backend/limits/redis.go:98-140 | a denied evaluation leaves a set as pruning alone would if and only if that policy denied too, or admitted a job it was not counting and its rollback took effect (or the failed rollback leaves a member that was there with the same score) |
| Limiter.HeldSlotIsDropped | libs/backend/limits/redis.go:212-219 | a denied evaluation takes away any slot the job held before |
| Limiter.DenialCostsASlot | libs/backend/limits/redis.go:98-140 | two policies, one holding the job's slot and one full: the evaluation is denied and the slot is gone |
| Limiter.FaultIsClean | libs/backend/limits/redis.go:106-124 | where a rollback works and no lost script took effect, the job's member is gone or where it was before |
| Limiter.FaultIsExact | libs/backend/limits/redis.go:106-124 | an evaluation that ends with an error leaves a new member if and only if that policy admitted the job and its rollback failed, or its script was the one that took effect without an answer |
| Limiter.FaultyEvaluation | libs/backend/limits/redis.go:98-140 | the exact content of every applicable key after such an evaluation |
| Limiter.DeniedReask | libs/backend/limits/redis.go:16-55 | a policy that denied admits again, without other traffic, if and only if its own retry time has come |
| Limiter.RetryTimeIsExact | libs/backend/limits/redis.go:98-140 | without other traffic, the job is admitted by every policy if and only if decision.RetryAt has come; it lies in the future |
| LimiterRuns.ExpiryIsPruning | libs/backend/limits/redis.go:16-29 | PEXPIRE on a rate key never drops a member pruning would have kept |
| LimiterRuns.WindowBound | libs/backend/limits/redis.go:16-34 | no half-open window ever holds more than Limit admissions that were not rolled back, if names stay away for a window or the limit is one |
| LimiterRuns.WindowBoundIsExact | libs/backend/limits/redis.go:16-34 | the window bound holds in all runs whose names stay away for a gap if and only if the gap is at least the window or the limit is at most one |
| LimiterRuns.ReturningNameOverflows | libs/backend/limits/redis.go:105-107 | for every limit from two on and every shorter gap, a run with one admission too many in a window |
| LimiterRuns.RepeatedNameIsNeverDenied | libs/backend/limits/redis.go:105-107 | under a limit of two or more, one name asked for any number of times within a window is admitted each time, so the window holds them all |
| LimiterRuns.SlotStepKeeps | libs/backend/limits/redis.go:36-70 | acquire, renew, give back and status each keep a slot set within its limit, for TTLs within one millisecond or a limit of one |
| LimiterRuns.SlotExpiryIsPruning | libs/backend/limits/redis.go:36-65 | under that condition, PEXPIRE on a slot key never drops an unexpired slot |
| LimiterRuns.RenewNeverCreates | libs/backend/limits/redis.go:57-65 | renewal never brings a member into the set |
| LimiterRuns.SlotBound | libs/backend/limits/redis.go:36-70 | at any time at most Limit jobs hold a slot that is neither given back nor run out, for TTLs within one millisecond or a limit of one |
| LimiterRuns.SlotBoundIsExact | libs/backend/limits/redis.go:36-70 | with TTLs from lo to hi the slot bound holds in all runs if and only if hi - lo is at most one millisecond or the limit is at most one |
| LimiterRuns.RunsAreFit | libs/backend/limits/redis.go:98-210 | whatever evaluations, faults, renewals, releases and status calls a store has seen, all its keys satisfy what the exact retry time assumes |
| LimiterRuns.RetryTimeIsExactInRuns | libs/backend/limits/redis.go:98-140 | in any such run a denied job is admitted again, other traffic aside, if and only if decision.RetryAt has come |
| LimiterRuns.CallKeepsStore | libs/backend/limits/redis.go:98-210 | every limiter call keeps every policy's set within its limit and alive as long as its members |
| LimiterRuns.MixedTtlsBreakTheBound | libs/backend/limits/redis.go:36-55 | for every limit from two on and TTLs two milliseconds or more apart, a run with one holder too many |
| FanIn.Runtime.DependencyReadiness | libs/backend/worker/dependencies.go:93-125 | ready if and only if every dependency is loadable and completed, or, if the job allows failure, failed or canceled |
| FanIn.Runtime.ResolveDependents | libs/backend/worker/dependencies.go:11-91 | one scan enqueues exactly the blocked dependents that are ready, in order, and moves only their rows |
| FanIn.Runtime.ReleaseExact | libs/backend/worker/dependencies.go:28-66 | what lets a listed job go, in states of rows, and what its row then says |
| FanIn.Runtime.ChosenExact | libs/backend/worker/dependencies.go:11-66 | the enqueued jobs are the listed ones that are let go, each once, in the order of the list |
| FanIn.PolicyAsks | libs/backend/worker/dependencies.go:106-118 | block asks for completed; allow_failed also takes failed and canceled |
| FanIn.Runtime.SameRelease | libs/backend/worker/dependencies.go:28-66 | releasing one dependent does not change whether another is ready |
| FanIn.NeverAheadOfDependencies | libs/backend/worker/dependencies.go:28-66 | under any interleaving a job is enqueued only after all its dependencies finished, under block all of them completed |
| FanIn.NoLostWakeUp | libs/backend/worker/runtime.go:191-231 | mark-then-scan: once all scans end, a job whose finished dependencies satisfy its policy has been enqueued at least once if a scan covered its commit and the unscanned finishes |
| FanIn.WokenIffListedAfterCommit | libs/backend/worker/runtime.go:298-342 | with a scan after every finish, it is enqueued if and only if some worker listed it after it was stored |
| FanIn.WakesComeFromScans | libs/backend/worker/dependencies.go:11-27 | no wake-up happens without a scan that began after the job was stored |
| FanIn.UnscannedLastFinishStrands | libs/backend/scheduler/service.go:124-201 | a dependency that ends last without a scan, as by dead-lettering in lease recovery, leaves the job blocked for good |
| FanIn.UnscannedCanStrand | libs/backend/scheduler/service.go:124-201 | for every setup with an unscanned dependency, a run that stores the job first and ends quiet without a wake-up |
| FanIn.WakesExactlyIfAllScan | libs/backend/worker/dependencies.go:11-66 | if the dependencies end as the policy wants, every quiet run that stores the job first wakes it if and only if a worker scans after every one of them |
| FanIn.StoredLastIsNeverWoken | libs/backend/worker/dependencies.go:11-27 | for every setup, a run in which all scans come before the job is stored and nothing wakes it |
| FanIn.WokenOnceExactly | libs/backend/worker/dependencies.go:11-66 | if the dependencies end as the policy wants, no run wakes the job twice if and only if at most one of their workers scans |
| FanIn.TwoScansWakeTwice | libs/backend/worker/dependencies.go:11-66 | a run in which two scans find everything finished before either has moved the row |
| Dependents.LeasedOnlyWhenReady | libs/backend/worker/dependencies.go:28-66 | broker and fan-in together: when the broker grants a job with dependencies, every one of them has finished, under block all of them completed |
| Dependents.LateSubmissionExact | libs/backend/service/service.go:111-113 | after the service's own enqueue the broker can run the job without another wake-up if and only if an earlier one left it delayed or leased |
| Dependents.LateSubmissionIsFinal | libs/backend/service/service.go:111-113 | in any joint run, after such an enqueue of a job neither delayed nor leased, it is never granted before another wake-up |
| Dependents.SecondWakeUpExact | libs/backend/worker/dependencies.go:53-66 | a second wake-up is outside every disciplined run, and keeps the partition if and only if it goes to the delayed set |
| Dependents.LateSubmissionLosesTheWakeUp | libs/backend/queue/redis.go:271-283 | a blocked enqueue after a wake-up into a ready list makes the next dequeue discard the entry, and no later step brings the job back |
| Leadership.Elector.TryAcquire | libs/backend/leadership/redis.go:51-72 | acquired if and only if there is no key, it has expired, or its token is the caller's; the key then lasts for the TTL, and otherwise stays |
| Leadership.Elector.Release | libs/backend/leadership/redis.go:74-80 | deletes an unexpired key if and only if its token is the caller's |
| Leadership.Scheduler.EnsureLeadership | libs/backend/scheduler/service.go:261-287 | the token, once there, is kept; on an error nothing changes in the scheduler, and the key is taken or not as the script ran or not |
| Leadership.Scheduler.ShouldRun | libs/backend/scheduler/service.go:250-259 | a gated tick starts if and only if the key has just been taken or renewed |
| Leadership.ForgottenTokenLocksOut | libs/backend/leadership/redis.go:51-72 | a scheduler whose first successful attempt lost its reply is admitted again if and only if the key under the forgotten token has expired |
| Leadership.LeadershipIsDisjoint | libs/backend/leadership/redis.go:15-41 | leadership intervals of different tokens never overlap, in any run, with any fixed TTL per token |
| Leadership.HolderIsRenewed | libs/backend/leadership/redis.go:15-34 | in any run, during its stretch a leader that asks is renewed for a full TTL and nobody else is admitted |
| Leadership.FreeKeyIsGranted | libs/backend/leadership/redis.go:15-41 | a free, expired or released key goes to whoever asks |
| Cron.Dispatcher.RunDueSchedules | libs/backend/scheduler/service.go:203-248 | a pass claims every free slot whose claim does not fail, enqueues the claimed ones whose enqueue succeeds, and moves on only those whose next run is computed and stored |
| Cron.Dispatcher.Dispatch | libs/backend/scheduler/service.go:209-246 | claim, enqueue and update of one schedule, with each of them failing or not |
| Cron.SentExact | libs/backend/scheduler/service.go:209-233 | a pass enqueues the slots of the listed schedules that nobody holds and whose claim and enqueue succeed, and no others |
| Cron.ClaimableExact | libs/backend/leadership/redis.go:107-110 | a slot can be claimed again only 24 hours after a claim |
| Cron.EachSlotOncePerDay | libs/backend/leadership/redis.go:107-110 | two jobs for one slot come from claims more than 24 hours apart, however many schedulers dispatch |
| Cron.NoSecondJobWithinADay | libs/backend/scheduler/service.go:211-216 | within 24 hours of a claim no second job is enqueued for its slot |
| Cron.DispatchAdvances | libs/backend/scheduler/service.go:203-248 | every completed dispatch strictly advances next_run_at |
| Cron.SlowPassRepeats | libs/backend/scheduler/service.go:203-248 | a run in which a pass longer than half a day enqueues a daily slot a second time and leaves next_run_at where it is |
| Cron.PassBoundIsExact | libs/backend/scheduler/service.go:203-248 | next_run_at advances in all runs if and only if no pass lasts longer than half the claim's life |
| Idempotency.Repository.CreateJobWithIdempotency | libs/backend/store/operations.go:49-144 | one call: suppressed by an unexpired record, replacing an expired one with a window of the asked length or 15 minutes, or losing the unique-key race and leaving no row |
| Idempotency.WindowsAreDisjoint | libs/backend/store/operations.go:49-144 | jobs created for one scope have pairwise disjoint [FirstSeenAt, ExpiresAt) windows under any interleaving |
| Idempotency.RecordsAreAsked | libs/backend/store/operations.go:49-144 | every accepted window starts when its call was made and is as long as that call asked, or 15 minutes |
| Idempotency.RowsAreAccepted | libs/backend/store/operations.go:49-144 | job rows are exactly those of committed records: losers and failures leave none |
| Idempotency.ResultsAreStored | libs/backend/store/operations.go:49-144 | every returned job is stored |
| Idempotency.ResultsAreCurrent | libs/backend/store/operations.go:692-706 | a suppressed call returns the job of the record stored at that moment, and a loser always finds the winner's record |
| Transport.LiveTransportManager.DoStart | src/lib/live-transport.ts:39-46 | replaces the timers by one that connects at once |
| Transport.LiveTransportManager.DoStop | src/lib/live-transport.ts:48-56 | drops timers and connections |
| Transport.LiveTransportManager.DoRetryNow | src/lib/live-transport.ts:58-67 | starts over at the first WebSocket attempt unless stopped |
| Transport.LiveTransportManager.DoConnect | src/lib/live-transport.ts:69-89 | resets everything and opens the connection the mode asks for |
| Transport.LiveTransportManager.DoOpenWebSocket | src/lib/live-transport.ts:91-153 | an unusable address means polling, a throwing constructor a failure |
| Transport.LiveTransportManager.DoOpenEventSource | src/lib/live-transport.ts:155-210 | no event sources, or no usable address, mean polling |
| Transport.LiveTransportManager.DoHandleFailure | src/lib/live-transport.ts:212-240 | retry, step down, or poll, by mode and attempt |
| Transport.LiveTransportManager.DoScheduleRetry | src/lib/live-transport.ts:242-256 | sets a retry timer without clearing another |
| Transport.LiveTransportManager.DoEnterPolling | src/lib/live-transport.ts:258-272 | clears everything and leaves a probe |
| Transport.LiveTransportManager.OnTimer | src/lib/live-transport.ts:252-285 | a fired timer forgets its handle and connects |
| Transport.LiveTransportManager.OnSocketClose | src/lib/live-transport.ts:145-152 | only the current socket's close counts, with the attempt it was opened for |
| Transport.LiveTransportManager.OnSourceOpen | src/lib/live-transport.ts:172-186 | an open event source schedules a probe |
| Transport.LiveTransportManager.OnSourceError | src/lib/live-transport.ts:202-209 | only the current source's error counts |
| Transport.StepSound | src/lib/live-transport.ts:39-325 | every call, timer and connection event keeps the ladder's invariant |
| Transport.LadderNeverStalls | src/lib/live-transport.ts:39-325 | while started, a connection or timer is always pending; never a socket and an event source together; after stop, nothing is left |
| Transport.LadderEndsInPolling | src/lib/live-transport.ts:212-240 | without probe or manual restart at most three WebSockets and two event sources fail, and after as many, or three WebSockets where event sources are unavailable, the manager polls |
| Transport.FailuresBounded | src/lib/live-transport.ts:5-6 | between restarts at most three WebSockets and two event sources fail |
| Transport.FailureLadder | src/lib/live-transport.ts:212-240 | what follows a failure: up to the third WebSocket, then an event source or polling; up to the second event source, then polling with a probe |
| Transport.ConnectOpens | src/lib/live-transport.ts:69-170 | a connect opens exactly the connection asked for, or polls if that cannot be |
| Transport.RestartExact | src/lib/live-transport.ts:39-67 | start and manual reconnect begin at the first WebSocket attempt with nothing else pending; stop leaves nothing |
| Transport.StatusIsTrue | src/lib/live-transport.ts:69-256 | in every run mode, state and attempt shown agree with the connection held or the retry pending |
| Transport.RetryTracksIff | src/lib/live-transport.ts:242-256 | a retry loses track of a timer if and only if another retry is pending |
| Transport.SecondStartTracksIff | src/lib/live-transport.ts:39-46 | restarting a connected manager loses a timer on the next drop if and only if that connection had a retry left |
| Transport.SecondStartLeaksATimer | src/lib/live-transport.ts:39-56 | a concrete run after which stop leaves a timer behind |
| Canonical.CanonicalExact | src/lib/live-refresh.ts:96-111 | two values have the same sorted form if and only if they are equal up to object key order (and `__proto__` keys) |
| Canonical.CanonicalIsSame | src/lib/live-refresh.ts:96-111 | the sorted form is a well-formed value equal to the original up to key order |
| Canonical.CanonicalIsIdempotent | src/lib/live-refresh.ts:96-111 | sorting twice changes nothing |
| Canonical.ProtoIsForgotten | src/lib/live-refresh.ts:106-109 | an own `__proto__` key is dropped |
| Canonical.StringifyReads | src/lib/live-refresh.ts:19-21 | the serialized text determines the value, whatever follows it |
| Canonical.SerializesAlikeExact | src/lib/live-refresh.ts:19-21 | stable serializations are equal if and only if the values are, up to key order |
| Stabilize.ReusedValueIsFaithful | src/lib/console-data.ts:1029-1031 | the kept value is the new one up to key order, and the previous one exactly when they are equal |
| Stabilize.ReuseList | src/lib/console-data.ts:1009-1027 | the map, the changed flag and the loop compute the specified result |
| Stabilize.KeptExact | src/lib/console-data.ts:1017-1021 | an item is kept if and only if an equal one stood anywhere in the previous list |
| Stabilize.FaithfulExact | src/lib/console-data.ts:1009-1027 | the result equals `next` position by position if and only if `next` is not a reordering of the previous list (or that holds a false value), or the keys already agree position by position |
| Stabilize.FaithfulIfChanged | src/lib/console-data.ts:1014-1026 | the flag decides: the result is faithful if and only if a change was flagged or the keys agree |
| Stabilize.ReusedExact | src/lib/console-data.ts:1014-1026 | the previous list is returned if and only if it holds true values only and `next` is a reordering of it |
| Stabilize.ObjectListsReused | src/lib/console-data.ts:102-118 | for lists of objects, the previous list is returned if and only if the new one is a reordering of it |
| Stabilize.ResultIsPermutation | src/lib/console-data.ts:1009-1027 | the result is always a permutation of `next`, up to key order |
| Stabilize.SortedListsAreFaithful | src/lib/console-data.ts:112-118 | lists strictly sorted by their key come out position by position |
| Stabilize.ReorderingIsDropped | src/lib/console-data.ts:1026-1026 | two items that swap places stay in the old order |

## Left out

Abstractions every theorem shares:

- Job ids are natural numbers standing for their rank in Redis' byte order; times are whole milliseconds. `RunAt.After(now)` compares below the millisecond in the source, so a job due within the current millisecond is filed here as due.
- Payload, result, error text, blocked reason, started/updated/heartbeat timestamps and the `lease:<id>` hash are opaque: no decision reads them.
- Lease tokens are an injective function of worker, job and grant time instead of a SHA-1; UUIDs are fresh ids; cron's `Next(now) > now` is given.
- One clock per Redis: key expiry and the scripts' `now` come from the same clock, and it does not run backwards in the timed runs.
- Delays and scores are exact integers: floats beyond 2^53 and Lua's number formatting from 10^14 milliseconds on are not modelled, apart from the overflow of the worker's backoff.

Members stated under a condition, and why:

- Fencing.FencedAck: needs the grants of that one job to carry different tokens, because Fencing.FencingIsExact shows fencing fails otherwise.
- Broker.RedisBroker.DequeueFrom: the hash is loaded into the worker's copy in a second round trip, at which other steps may come in between; Fencing.WorkerCopyIsCurrent treats that copy as loaded at any later step.
- Exclusion.LeasesAreDisjoint: takes the partition discipline, one clock, and workers that each lease and renew with their own fixed TTL, as a worker's configuration makes them; a heartbeat with a shorter TTL would shorten a lease its holder counts on.
- Resubmission.BlockedAgainExact: the job has one of the ten priorities a valid request can ask for; whether workers do dequeue is left to them.
- Filing.HighestPriorityFirst: takes a partitioned store; Filing.DequeueTakes says for any store what is granted and what is discarded.
- Hashes.HashesTellState: takes the partition discipline, hashes handed in with fields that fit their state, and reports and replays that keep the job's queue, because Hashes.ReplayDeadLettersExact shows a replay elsewhere leaves an entry behind.
- Attempts.BoundedExecution: excludes operator replays, which reset the attempts, and takes the worker's retry decision on the hash's own attempts; Worker.WorkersAreBounded needs no such assumption.
- PartitionRuns.PartitionHolds: needs the discipline (enqueue only new or blocked ids, replay only jobs that are not live, acknowledge with a real token, cancel what was just loaded), because the lemmas named Exact for enqueue, retry, cancel, complete, fail and throttle show the steps break the partition otherwise.
- LimiterRuns.SlotBound: bounds slots, not running handlers, because a release goes by job id whoever calls it; its condition on the TTLs is exact (LimiterRuns.SlotBoundIsExact).
- LimiterRuns.RunsAreFit: the policies of a run are fixed and their ids distinct, as the primary key makes them.
- LimiterRuns.WindowBound: needs a fixed limit, and names that stay away for a window unless the limit is one, which is exact (LimiterRuns.WindowBoundIsExact); an evaluation is taken to roll back its admission before the name comes back.
- FanIn.NoLostWakeUp: claims at least one wake-up, not exactly one, because FanIn.WokenOnceExactly shows two scans can both wake the job; a finished dependency stays finished (an operator's replay of a dependency is not modelled), nor are repository errors and cancels of the dependent itself.
- Dependents.LeasedOnlyWhenReady: excludes operator replays and repeated runnable submissions of the dependent job, which release it without a scan.
- Dependents.LateSubmissionExact: the submitted copy has attempts before it and no cancel requested, as the service builds it.
- Cron.EachSlotOncePerDay: slots are opaque times, so two fire times within one second, which share a claim key, are not distinguished; edits of a schedule during a pass are not modelled.
- Idempotency.WindowsAreDisjoint: a losing insert may fail before the winner's commit is visible to it, and deletions of job rows are not modelled; every interleaving the database allows is still covered.
- Transport.LadderNeverStalls: `start` is called on a manager without a connection, because Transport.SecondStartTracksIff shows a timer is lost otherwise; retry delays and their jitter are not modelled.
- Stabilize.FaithfulExact: keys are read off the item's own content, as every caller's key function does, and items carry values JSON can express (no undefined, NaN or infinities).
- Canonical.CanonicalExact: which order the rebuilt keys come in is modelled and not claimed, because only the equality of two serializations is used.
- Canonical.StringifyReads: text is a sequence of lexical tokens; string escapes and number formatting are not modelled.

Not modelled:

- HTTP handlers, authentication, metrics, logging, configuration and bootstrap: plumbing around the protocols.
- React components, formatting and demo fixtures; `dashboard/src/lib` holds copies of the modelled files.
- SQL text, percentile and graph queries, cron parsing and time zones: engine and library semantics.
- `appendEvents`, `sortEvents`, polling intervals and reading back queue lengths: they would add only easy members.
- Errors of a broker call in the worker (it logs and gives up), and the handler itself: its outcome is a parameter.
- A crash of Redis or PostgreSQL between two steps, and liveness that needs fair scheduling.
