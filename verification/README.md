# reqx, modelled in Dafny

reqx is an HTTP client for Rust. This project models the control code that decides what the client does,
apart from the I/O that carries it out, and proves what that code promises over whole runs.

| part | modules |
|---|---|
| resumable uploads | `UploadTypes`, `UploadSession`, `Uploader`, `UploadRuns` |
| rate limiting with evicted hosts | `TokenBuckets`, `PlainLimiter`, `RateLimiter`, `HostEviction` |
| circuit breaker, retry budget, adaptive limit | `CircuitBreaker`, `RetryBudget`, `AdaptiveLimit` |
| concurrency limiters | `BlockingSemaphore`, `HostLimiters`, `HostEviction` |
| the retry and redirect loop | `Redirects`, `Attempts`, `Execution`, `RequestRuns` |
| completion accounting | `Metrics` |
| PEM bundles and content codings | `Pem`, `ContentEncoding` |
| shared helpers | `Wrappers`, `Machine`, `Text` |

`dafny verify dfyconfig.toml` checks everything.

## How the model is made

- Objects that the source updates in place are classes; each method is proved against a function or relation on
  values, and the theorems over runs are about those values. Loops in the source are loops here.
- A section under a mutex is one step. The breaker, the limiters, the adaptive controller and the metrics are
  machines whose steps interleave in any order; each theorem is about every sequence of enabled steps.
- What the code cannot control is arbitrary. A backend may fail any call and return any metadata. A request meets
  one `World` per turn: the limiters, the interceptors' headers, the network's reply and the clock. Eligibility
  predicates, retryable statuses, URI functions, digests and decoders are function values.
- Both request loops are one model: `droppedAt` says at which wait the asynchronous loop is dropped, and with
  `None` throughout it is the blocking loop.
- Instants and durations are integers in nanoseconds, `f64` is `real`, and the widths of `u32`, `u64` and `usize`
  are written out where the code saturates.

## What turned out

- Checkpoint resume without a checksum compares sizes only, so a changed source may come out mixed.
  `Uploader.SizeOnlyResumeMixes` is such a resume, and `UploadRuns.SizeOnlyResume` says exactly when it does not happen.
- `UploadWithCheckpoint` succeeds against a backend and reader that do not fail if and only if the source is
  non-empty, fits 32-bit part numbers, leaves no entry over, and every skipped entry is backed by remote bytes.
- The size reported for an oversized decoded body depends on how the decoder cuts its data
  (`ContentEncoding.CutsShowInTheSize`); nothing else does.
- The metric totals balance for as many starts as the counter holds. The next start unbalances them unless the
  in-flight counter is full too, when both stand still (`Metrics.StartConservesExactly`).
- The rate bounds and the throttles hold in any order of clock readings; that eviction cannot be noticed, and a
  host's rate over time across evictions, hold for readings in order.

## Model

| member | source | states |
|---|---|---|
| UploadTypes.EncodeHexLower | src/upload/mod.rs:125-133 | two digits for every byte, in order, and each pair read high before low is the value of its byte |
| UploadTypes.HexReadsBack | src/upload/mod.rs:125-133 | for every byte, sixteen times the value of its first digit plus the value of its second is the byte |
| UploadTypes.ComputeChecksum | src/upload/mod.rs:411-414 | the checksum a plan expects is the encoded hash of its chunk, and none without an algorithm |
| UploadTypes.HexInjective | src/upload/mod.rs:125-133 | different digests have different hexadecimal texts |
| UploadTypes.NormalizedHex | src/upload/mod.rs:135-141 | trimming quotes and lower-casing leaves an encoded digest as it is, so comparing normalised tokens compares digests |
| UploadTypes.TokenIsNormalized | src/upload/mod.rs:135-141 | white space, then double quotes, then single quotes fall away at both ends of any token, and its letters become lower case |
| UploadTypes.ValidateCheckpoint | src/upload/session.rs:10-58 | accepts exactly the checkpoints of the current version, part size, algorithm and key set; a rejection names a fault the checkpoint really has |
| UploadTypes.DescribesOnlyOne | src/upload/session.rs:60-84 | with an injective checksum, two chunks described by one entry are the same bytes |
| UploadTypes.FirstRemaining | src/upload/session.rs:86-96 | finds the least recorded part number at or after a given one, and nothing only when none is left |
| UploadTypes.ConcatChunks | src/upload/session.rs:98-105 | the chunks of a source concatenate to the source |
| UploadTypes.ChunkWindow | src/upload/session.rs:98-105 | chunk i is window i of the source; every chunk but the last is full and none is empty |
| UploadSession.MetadataError | src/upload/mod.rs:416-457 | metadata is accepted exactly when a stated checksum, and the etag if it is verified, equal the expected checksum after normalisation |
| UploadSession.Session.constructor | src/upload/session.rs:178-195 | a session on a valid checkpoint starts at part one with nothing counted and keeps its invariant |
| UploadSession.Session.NextChunk | src/upload/session.rs:201-244 | an empty chunk finishes exactly when no entry is left; a chunk its entry describes is skipped; any other forgets its stale entry before planning the upload; part numbers beyond 32 bits are refused |
| UploadSession.Session.AcceptUploadedPart | src/upload/session.rs:246-285 | records a part exactly when number, size and metadata agree with the plan, and the new entry describes the planned chunk; otherwise nothing moves |
| UploadSession.Session.TotalParts | src/upload/session.rs:356-360 | the number of parts passed, saturated to 32 bits |
| UploadSession.Session.OrderedCompletedParts | src/upload/session.rs:324-354 | returns entries 1..n in order or the empty-body error; the missing-part error is unreachable |
| UploadSession.Session.FinishWith | src/upload/session.rs:362-371 | the result carries the session identity, the bytes counted and the parts passed |
| Uploader.PartRetry.RecordFailure | src/upload/session.rs:150-167 | counts attempts up to the maximum and then reports the failed part with the checkpoint it is given |
| Uploader.ResumableUploader.UploadPartWithRetries | src/upload/blocking.rs:135-156 | between one and the maximum number of calls, all for this part; on success the remote part is the chunk, and no other part is touched |
| Uploader.ResumableUploader.SendPlanned | src/upload/blocking.rs:106-110 | a planned part is recorded if and only if it was stored and accepted; a willing backend makes it succeed |
| Uploader.ResumableUploader.OneChunk | src/upload/blocking.rs:99-112 | one turn reads, and then skips, sends or stops; without a failure it stops only at the end of the source, on leftover entries or past the last part number |
| Uploader.ResumableUploader.ChunkLoop | src/upload/blocking.rs:99-112 | at every exit each part sent had no valid entry and each entry describes what is stored; if nothing failed, an error means the source could not be finished |
| Uploader.ResumableUploader.CompleteRun | src/upload/blocking.rs:114-118 | completion lists exactly the parts of the source and the backend assembles those |
| Uploader.ResumableUploader.RunToEnd | src/upload/blocking.rs:98-119 | a run keeps the run promise in every ending, and finishes when it can and nothing fails |
| Uploader.ResumableUploader.AbortErrorIfConfigured | src/upload/blocking.rs:63-82 | an abort is requested once if and only if it is configured, and the original error survives, at most wrapped by the failed abort |
| Uploader.ResumableUploader.UploadWithCheckpoint | src/upload/blocking.rs:84-133 | an invalid checkpoint is rejected before any I/O; otherwise every error hands back a valid checkpoint, a failed run aborts exactly once when configured, and with a willing backend and a steady reader the run succeeds if and only if the source is finishable |
| Uploader.ResumableUploader.Upload | src/upload/blocking.rs:19-35 | a fresh upload starts from an empty checkpoint and keeps the same promise; when nothing fails it succeeds if and only if the source is non-empty and fits the part numbers |
| Uploader.ResumableUploader.UploadUntilDone | src/upload/blocking.rs:19-61 | uploading and then resuming from each returned checkpoint, over any readers of one source: success assembles exactly the source, nothing accepted is sent in a later run, and a backend and last reader that do not fail bring it to its end |
| Uploader.SizeOnlyResumeMixes | src/upload/session.rs:60-84 | a resume without a checksum that succeeds and assembles other bytes than its source |
| Uploader.ResumableUploader.Resume | src/upload/blocking.rs:49-61 | a resume keeps the promise for the whole source read from its beginning, and succeeds if and only if the source is finishable when nothing fails |
| Uploader.FinishedWasFinishable | src/upload/session.rs:201-244 | every finished run had a source within the part numbers, no entry beyond it, and remote bytes behind every skipped entry |
| Uploader.InterruptedIsFinishable | src/upload/session.rs:201-285 | after any number of interruptions of an unchanged source, the checkpoint can be resumed to the end |
| UploadRuns.RunKeepsFaithful | src/upload/session.rs:201-285 | a run on an unchanged source keeps every entry true to that source and never sends a recorded part |
| UploadRuns.AcceptedStaysAccepted | src/upload/session.rs:208-244 | a part recorded after one run is still recorded, and never sent again, in every later run |
| UploadRuns.InterruptedUploadIsExact | src/upload/blocking.rs:84-156 | over every chain of interrupted runs that ends in success, the assembled object is exactly the source, part k is chunk k, the totals are right, and nothing accepted is sent twice |
| UploadRuns.RunKeepsTruthful | src/upload/session.rs:208-244 | with any source, backend and reader, every checkpoint entry still describes the bytes held remotely after the run |
| UploadRuns.ChainKeepsTruthful | src/upload/session.rs:208-244 | the same after every run of a chain whose source may change between runs |
| UploadRuns.ResumeYieldsLatestSource | src/upload/session.rs:201-285 | with an injective checksum, a chain over a changing source ends as exactly the latest source with keys exactly 1..n |
| UploadRuns.SizeOnlyResume | src/upload/session.rs:60-84 | without a checksum a finished resume yields its source if and only if every remote part whose recorded size fits already held the new chunk |
| Text.HostKeyIs | src/core/util/uri.rs:25-31 | hosts that differ in padding, trailing dots and letter case share a key, and a blank host has none |
| Text.TrimDrops | src/core/util/uri.rs:25-31 | trimming takes away exactly what is to be dropped at both ends |
| Text.SplitUndoesJoin | src/core/content_encoding.rs:142-147 | splitting undoes joining for every list of pieces without the separator |
| TokenBuckets.RefillValid | src/rate_limit.rs:238-251 | refilling, with any clock reading, keeps the tokens between zero and the burst |
| TokenBuckets.AtLater | src/rate_limit.rs:238-251 | looking at a bucket early, or refilling it early, does not change what is seen later |
| TokenBuckets.IdleLooksNew | src/rate_limit.rs:287-290 | a bucket is idle if and only if it cannot be told from a new one at any later time |
| TokenBuckets.ThrottleAt | src/rate_limit.rs:292-305 | throttling a bucket and looking at it commute, so a throttle applied to a bucket refilled late or early is the same throttle |
| TokenBuckets.ThrottleIsExact | src/rate_limit.rs:292-305 | a throttle adds exactly the time up to its capped end, nothing when that end cannot be represented, and changes nothing else |
| TokenBuckets.AdmitInClosedForm | src/rate_limit.rs:238-285 | every answer is the larger of the two waits; a throttled bucket waits exactly for its end, and every bucket holds what was left plus rate x elapsed seconds, up to the burst, less one token for a grant |
| TokenBuckets.TimeEarnsTokens | src/rate_limit.rs:238-251 | an unthrottled bucket has at least the tokens its rate earned since its last refill, up to the burst, and admits with no delay when that is one |
| TokenBuckets.AdmitIsAtomic | src/rate_limit.rs:343-391 | a zero delay means exactly one token was charged to every applicable bucket; any other delay means none was charged |
| RateLimiter.GlobalRateBound | src/rate_limit.rs:343-391 | over any stretch of any run, with evictions and with clock readings in any order, all grants together are at most the burst plus rate times the advance of the global refill clock |
| RateLimiter.HostRateBound | src/rate_limit.rs:343-391 | the same bound, in any clock order, for every host that stays in the map while others are evicted |
| RateLimiter.GlobalStep | src/rate_limit.rs:343-391 | whatever the reading, one section costs the global bucket at least a token for a grant, and never gains it credit |
| RateLimiter.HostStep | src/rate_limit.rs:343-391 | the same for a host bucket that a cleanup keeps |
| PlainLimiter.HostRateOverTime | src/rate_limit.rs:343-391 | with ordered readings, no host is granted more than burst + rate x elapsed time in any stretch of a run |
| PlainLimiter.BurstIsExact | src/rate_limit.rs:343-391 | asked k times at one instant, unthrottled buckets grant exactly as often as both have whole tokens |
| RateLimiter.BurstIsServed | src/rate_limit.rs:343-391 | the same for the evicting limiter from any state, whatever is evicted in between: no fewer grants and no more |
| RateLimiter.IdleHostIsServed | src/rate_limit.rs:238-285 | after an idle stretch an unthrottled host gets at least the tokens that its rate earned in it, up to the burst |
| RateLimiter.HostThrottleHolds | src/rate_limit.rs:253-305 | in any clock order, a held host bucket is never evicted and refuses every acquisition before its end |
| RateLimiter.GlobalThrottleHolds | src/rate_limit.rs:253-305 | in any clock order and across evictions, a held global bucket refuses every acquisition before its end |
| RateLimiter.AutoScopeReachesALimiter | src/rate_limit.rs:47-89 | whenever some limiter can enforce a hint, the inferred scope reaches one that exists |
| RateLimiter.ScopeIsHonoured | src/rate_limit.rs:29-89 | a configured scope stands as it is, and an inferred one follows the hint wherever the limiter it names exists |
| RateLimiter.SameAfterCleanup | src/rate_limit.rs:492-515 | removing idle entries leaves a limiter indistinguishable from the one before |
| RateLimiter.EvolvesSame | src/rate_limit.rs:343-437 | one critical section answers as the limiter that never evicts does, and stays matched with it |
| RateLimiter.EvictionIsInvisible | src/rate_limit.rs:439-515 | for nondecreasing readings, every call of every run returns the delay of a limiter that never evicts |
| RateLimiter.HostRateAcrossEvictions | src/rate_limit.rs:343-391 | across evictions no host is granted more than burst + rate x elapsed time |
| RateLimiter.ThrottleAcrossEvictions | src/rate_limit.rs:393-515 | a global or host throttle, capped by the policy, is never cut short by an eviction or by a reading that comes late |
| RateLimiter.Limited.constructor | src/rate_limit.rs:323-341 | a new limiter starts with full buckets and no hosts |
| RateLimiter.Limited.MaybeCleanup | src/rate_limit.rs:439-480 | cleans up exactly when the map is over its size or the interval has passed; then no stale entry is idle, and the map is within its size or has no idle entry |
| RateLimiter.Limited.AcquireDelay | src/rate_limit.rs:343-391 | the object takes one specified acquisition step: cleanup, lookup or creation, and both charges or neither |
| RateLimiter.Limited.ObserveServerThrottle | src/rate_limit.rs:393-437 | applies a hint in the scope it resolves to, as at most one specified throttle step on each side |
| RateLimiter.RetainFresh | src/rate_limit.rs:492-502 | keeps exactly the entries that are not both idle and past their time |
| RateLimiter.CleanupStale | src/rate_limit.rs:492-515 | what is dropped was idle; what is left is within the limit or not idle; the least recently used idle entries go first |
| HostEviction.OldestIdle | src/core/limiters.rs:23-30 | returns an idle entry no other idle entry is older than, and none only when none is idle |
| HostEviction.EvictOldest | src/core/limiters.rs:12-33 | drops idle entries only, oldest first, until the limit is met or none is idle, and stops as soon as it is |
| CircuitBreaker.ReportsAreExpected | src/resilience.rs:347-429 | a report of the current generation finds the state it was begun in, so the fall-through arms are unreachable and the saturating subtraction never clips |
| CircuitBreaker.RunKeepsInv | src/resilience.rs:298-445 | in every reachable state the closed count is the failures since the last success, and the half-open count is the live attempts of the generation, within its limit |
| CircuitBreaker.OpensExactlyAtThreshold | src/resilience.rs:378-411 | from closed the breaker opens, at that instant, on exactly the failure that completes the threshold since the last success of its generation |
| CircuitBreaker.ClosesExactlyWhenRecovered | src/resilience.rs:347-445 | from half-open it closes, under a new generation, exactly on the report that leaves no live probe, no failure and enough successes, and opens exactly on a failure of a current probe |
| CircuitBreaker.OpenAdmitsNothing | src/resilience.rs:308-325 | while open nothing is admitted before the timeout, whatever stale attempts report |
| CircuitBreaker.ProbesExactlyAfterTimeout | src/resilience.rs:308-325 | from open a start is admitted if and only if the timeout has passed, and then as the one live probe of a new half-open generation |
| CircuitBreaker.RefusalNamesTheWait | src/resilience.rs:308-325 | a request is admitted if and only if the wait named by an earlier refusal is over |
| CircuitBreaker.HalfOpenAdmitsExactly | src/resilience.rs:326-343 | a half-open breaker admits exactly while fewer probes are live than its limit and too few have succeeded |
| CircuitBreaker.EveryRunRecovers | src/resilience.rs:298-445 | after any run from a new breaker, once every attempt has reported and any timeout has passed, the next start is admitted |
| CircuitBreaker.NeverWedged | src/resilience.rs:326-343 | a half-open breaker that refuses has a live probe, and every outcome of it moves the breaker on |
| CircuitBreaker.DrainedAdmits | src/resilience.rs:298-345 | once every probe of the generation has reported, a breaker that is not open admits the next request |
| CircuitBreaker.StepRefinesCounter | src/resilience.rs:268-277 | each step with reusable token addresses matches a step of a breaker that numbers its generations |
| CircuitBreaker.RunRefinesCounter | src/resilience.rs:268-445 | every run with reused addresses gives the answers of a breaker with strictly increasing generations |
| CircuitBreaker.TokensAreGenerations | src/resilience.rs:285-445 | from a new breaker with any token, every run gives the answers of numbered generations and keeps its counts exact |
| CircuitBreaker.Breaker.TryBegin | src/resilience.rs:298-345 | admits or refuses with the remaining wait, and moves to half-open, as the specified start step |
| CircuitBreaker.Breaker.RecordSuccess | src/resilience.rs:347-376 | the specified step for a success, and nothing for a stale generation |
| CircuitBreaker.Breaker.RecordFailure | src/resilience.rs:378-411 | the specified step for a failure, and nothing for a stale generation |
| CircuitBreaker.Breaker.RecordCancel | src/resilience.rs:413-429 | the specified step for a cancellation, and nothing for a stale generation |
| CircuitBreaker.Breaker.CloseHalfOpenIfRecovered | src/resilience.rs:431-445 | closes with a new generation exactly when no probe is active and the successes suffice |
| CircuitBreaker.OwnedAttempt.Finish | src/resilience.rs:464-479 | an attempt reports its outcome exactly once, its later drop included |
| CircuitBreaker.OwnedAttempt.Drop | src/resilience.rs:495-502 | a drop cancels an attempt that has not reported and does nothing to one that has |
| RetryBudget.WindowBound | src/resilience.rs:107-147 | in every state of every run, in any clock order, the retries of a window are at most floor(ratio x successes) + minimum |
| RetryBudget.GrantsExactlyItsRoom | src/resilience.rs:113-147 | asked k times, the budget grants exactly as often as the current window has room: floor(ratio x successes) + minimum less what is used, or the minimum in a new window |
| RetryBudget.SuccessesBuyRetries | src/resilience.rs:107-147 | in a window, n successes buy exactly floor(ratio x n) retries on top of the minimum |
| RetryBudget.RetriesBoundedOverRuns | src/resilience.rs:107-147 | retries granted by a time are at most the minimum for each window begun plus ratio x successes, over the whole run |
| RetryBudget.SharedBudget.RefreshWindow | src/resilience.rs:136-147 | the window restarts, with its counts, exactly when it has elapsed |
| RetryBudget.SharedBudget.RecordSuccess | src/resilience.rs:107-111 | one specified success step |
| RetryBudget.SharedBudget.TryConsumeRetry | src/resilience.rs:113-124 | grants, and counts, a retry exactly while the window allows one |
| AdaptiveLimit.AdaptiveState.TryAcquire | src/resilience.rs:679-685 | admits exactly while fewer permits are out than the limit |
| AdaptiveLimit.AdaptiveState.ReleaseAndRecord | src/resilience.rs:687-714 | gives the permit back and moves limit and average as one specified release |
| AdaptiveLimit.AdaptiveState.ReleaseWithoutRecord | src/resilience.rs:716-718 | gives the permit back and leaves limit and average alone |
| AdaptiveLimit.LimitStaysInRange | src/resilience.rs:687-714 | over every sequence of releases the limit stays between its minimum and maximum |
| AdaptiveLimit.ConsecutiveDecreases | src/resilience.rs:705-708 | k decreases in a row leave at most max(minimum, floor(ratio^k x limit)) |
| AdaptiveLimit.DecreasesAreBounded | src/resilience.rs:705-708 | and at least ratio^k x limit less one for each of the k roundings |
| AdaptiveLimit.EachReleaseMoves | src/resilience.rs:702-713 | a failure or an average above the threshold gives max(minimum, floor(ratio x limit)), and anything else min(maximum, limit + step) |
| AdaptiveLimit.HealthyNeverLowers | src/resilience.rs:687-714 | with no failure and no sample above the threshold the limit never goes down |
| AdaptiveLimit.HealthyRaises | src/resilience.rs:687-714 | k healthy releases give exactly min(maximum, limit + k x step) |
| AdaptiveLimit.AverageWithinSamples | src/resilience.rs:695-700 | the moving average always lies between the least and the greatest sample |
| AdaptiveLimit.AverageConverges | src/resilience.rs:695-700 | the distance of the average to a steady latency shrinks to exactly four fifths with each sample |
| AdaptiveLimit.ChecksExactlyByRoom | src/async_client/adaptive.rs:29-48 | a check takes a permit exactly while fewer are out than the limit, and otherwise leaves the task waiting |
| AdaptiveLimit.NoLostWakeups | src/async_client/adaptive.rs:29-60 | over every interleaving, permits out equal the count, and no waiter past its check sleeps un-notified while there is room |
| AdaptiveLimit.StepKeepsInv | src/blocking_client/mod.rs:49-96 | each step of a task or of a thread on the condition variable keeps the same |
| BlockingSemaphore.NoLostPermits | src/blocking_client/limiters.rs:47-118 | over every interleaving of arrivals, spurious returns, expired deadlines and releases, free plus held permits equal the limit and pending notified threads cover the free permits while anybody sleeps un-notified |
| BlockingSemaphore.FreePermitHasATaker | src/blocking_client/limiters.rs:58-102 | whenever a permit is free and somebody sleeps, some notified thread takes it when it returns |
| BlockingSemaphore.LooksExactlyByRoom | src/blocking_client/limiters.rs:58-96 | a thread takes a permit exactly while fewer than the limit are held; otherwise it gives up on its deadline or sleeps |
| BlockingSemaphore.LookKeepsInv | src/blocking_client/limiters.rs:58-96 | one turn of the acquire loop keeps permits and wake-ups |
| BlockingSemaphore.ReleaseKeepsInv | src/blocking_client/limiters.rs:98-118 | a release with one notification keeps them |
| HostLimiters.DroppedIsUnused | src/async_client/limiters.rs:30-39 | an entry that a cleanup may drop has no waiter, no holder and no permit still closing |
| HostLimiters.CleanupKeepsInv | src/core/limiters.rs:12-33 | a cleanup leaves every waiter and holder on the semaphore that is in the map |
| HostLimiters.ArriveKeepsInv | src/blocking_client/limiters.rs:151-189 | lookup or creation under the lock, and a first try for a permit, keep every handle current and every host balanced |
| HostLimiters.StepKeepsInv | src/async_client/limiters.rs:76-123 | every step of arriving, waiting, leaving, releasing and forgetting keeps the same |
| HostLimiters.CapSurvivesEviction | src/async_client/limiters.rs:76-123 | over every interleaving with evictions, no host ever holds more permits than its limit |
| HostLimiters.ArrivesExactlyByRoom | src/blocking_client/limiters.rs:151-189 | an arrival gets a permit at once exactly while its host holds fewer than the limit, whatever was evicted, and otherwise waits on that host |
| HostLimiters.WaiterMayTake | src/async_client/limiters.rs:76-123 | whenever a host holds fewer permits than its limit, each of its waiters may take one |
| HostLimiters.CleanupStale | src/core/limiters.rs:12-33 | drops only idle entries, all that are past their time, and then the least recently used until the limit is met or none is idle |
| Redirects.FollowsTheStandard | src/core/execution.rs:1103-1166 | a followed redirect is within its count; 307 and 308 keep method and body, 303 leaves GET or HEAD without a body, 301 and 302 change only POST to GET; a changed method always drops the body, and a kept body is replayable |
| Redirects.FollowedExactly | src/core/execution.rs:1103-1166 | exactly when a redirect is followed, ignored or refused for its count or its body; the next address is the resolved location and the origin flag compares the two addresses |
| Redirects.SanitizedIsSafe | src/core/util/redirect.rs:148-177 | a redirect only removes headers: hop-by-hop and connection-listed ones always, content headers with the body, and every credential across origins |
| Redirects.SanitizedKeepsTheRest | src/core/util/redirect.rs:148-177 | every other header is kept with its values |
| Execution.TakeForAttempt | src/core/request_body.rs:28-33 | buffered bytes are shared; a stream is moved out and leaves the empty body |
| Execution.RequestExecution.constructor | src/core/execution.rs:125-161 | more than one attempt is allowed only for an eligible request with a replayable body |
| Execution.RequestExecution.TightenRetryEligibility | src/core/execution.rs:201-212 | the attempts left are cut to the current one exactly when the body or the intercepted headers rule out a retry |
| Execution.RequestExecution.PrepareRetrySchedule | src/core/execution.rs:786-814 | schedules exactly when attempts, policy, deadline and budget all allow it, and only then counts an attempt |
| Execution.RequestExecution.ApplyRedirect | src/core/execution.rs:401-426 | moves the request to its next hop and restores the configured attempts exactly when one was left and the new request may be retried |
| Attempts.AttemptGuards.Conclude | src/core/execution.rs:1008-1063 | gives every guard still held one outcome and does nothing to guards already settled |
| Attempts.AttemptGuards.Take | src/core/execution.rs:995-1000 | hands the guards on without an outcome |
| Attempts.AttemptGuards.IntoStream | src/core/execution.rs:627-649 | a response that counts as a failure settles the guards; otherwise the stream inherits exactly the guards that were begun and the budget |
| Attempts.StreamLifecycle.Complete | src/core/execution/lifecycle.rs:38-75 | the first call settles guards, budget and metrics once; every later call changes nothing |
| Attempts.ReadStream | src/core/execution/lifecycle.rs:38-93 | whatever calls a reader makes before dropping the stream, everything is settled once, by the first call or by the drop, and each guard hears success, failure or cancellation accordingly |
| Execution.Admit | src/blocking_client/execute.rs:768-847 | either something stopped the turn before it sent, and every guard begun was cancelled, or both guards are open and the retry limit is tightened |
| Execution.Retry | src/blocking_client/execute.rs:344-369 | counts an attempt and fails the guards exactly when a retry is scheduled or refused; otherwise the attempt stays open |
| Execution.OnLost | src/blocking_client/execute.rs:860-902 | a lost request retries or ends as its loss calls for, with the guards settled accordingly |
| Execution.ReadResponse | src/blocking_client/execute.rs:989-1042 | a response is read, retried or given up as the reading calls for; the budget is credited exactly by a completed one |
| Execution.OnFinalAnswer | src/blocking_client/execute.rs:928-1042 | a response that is not followed is streamed, retried or read as mode, status and policy call for |
| Execution.OnAnswer | src/blocking_client/execute.rs:905-1042 | a response is followed, refused or final, and the request state moves accordingly |
| Execution.OneTurn | src/blocking_client/execute.rs:768-1042 | one turn does exactly what its limiters, interceptors, network and clock call for, sends the body it was given, and gives every guard its outcome once |
| RequestRuns.FateKeepsLimits | src/core/execution.rs:201-212 | a retry needs an attempt left, a replayable body and eligible intercepted headers; a hop is within its count; only a dropped loop is abandoned; a stream is returned exactly in streaming mode |
| RequestRuns.SendsExactly | src/blocking_client/execute.rs:768-849 | something is sent exactly when no wait was dropped and every gate and check lets the turn through; a refusal names a gate that refused |
| RequestRuns.HopsExactly | src/blocking_client/execute.rs:905-924 | a turn hops exactly on an answer that is a redirect it may follow, to the address the location resolves to |
| RequestRuns.RetriesExactly | src/core/execution.rs:786-814 | a turn is retried exactly when attempts are left, body and intercepted headers allow it, and the decision it comes to is wanted, in time and funded |
| RequestRuns.AnswerReachesTheCaller | src/blocking_client/execute.rs:926-1042 | a response that is neither followed nor retried ends the loop as stream, response, status error, deadline or read error, as mode, policy and reading ask |
| RequestRuns.GuardsHearWhatHappened | src/core/execution.rs:1008-1063 | a retried or lost attempt reports a failure, a followed one a success, an unsent, abandoned or unclassified one a cancellation |
| RequestRuns.CompletionIsPaid | src/core/execution.rs:590-625 | a buffered response counts as a success for both guards, and credits the budget, exactly when it is 2xx or not retryable |
| RequestRuns.LossUsesEveryAttempt | src/blocking_client/execute.rs:753-1049 | a replayable, eligible request that is always lost is sent exactly as often as configured and then fails |
| RequestRuns.RedirectsStopAtTheLimit | src/blocking_client/execute.rs:753-1049 | an endless chain of redirects is followed exactly as often as allowed and then refused |
| RequestRuns.DroppedBodyMayBeRetried | src/core/execution.rs:401-426 | once a redirect drops the body, even a streamed request is given every configured attempt |
| RequestRuns.NextIsBounded | src/core/execution.rs:401-426 | attempt <= maximum <= configured survives every retry and hop although the maximum shrinks and grows, and every turn that goes on comes closer to the end |
| RequestRuns.Execute | src/blocking_client/execute.rs:753-1049 | for every sequence of responses, interceptor results and drops, the loop ends after at most configured attempts + redirects turns, never by its own guard; each turn starts where the last ended and sends the body that is owed; without drops nothing is abandoned |
| RequestRuns.StreamSentOnce | src/core/request_body.rs:26-33 | a streaming body is sent at most once, and what follows it is the empty body a redirect asked for, never the placeholder in its stead |
| RequestRuns.BodyKeepsItsMethod | src/core/execution.rs:1103-1166 | every body sent is the original one under the original method, or the empty one after a redirect dropped it |
| RequestRuns.HeadersShrink | src/core/execution.rs:401-426 | over a whole run the headers a turn starts from are only ever removed |
| RequestRuns.CredentialsStayHome | src/core/util/redirect.rs:155-175 | after a hop between two addresses of different origin no later turn of the run starts from a credential; after a dropped body none starts from a content header |
| RequestRuns.RetriesAreEligible | src/core/execution.rs:201-212 | a retried turn had sent buffered bytes, with headers its own interceptors left eligible |
| RequestRuns.SettledTurn | src/core/execution.rs:1008-1063 | in a turn that hands out no stream each begun guard got exactly one outcome |
| RequestRuns.StreamInherits | src/core/execution.rs:627-656 | a stream inherits a guard if and only if its turn began it and gave it no outcome |
| RequestRuns.LogicalRequest | src/async_client/client.rs:763-1094 | over the whole request and whatever the caller does with its stream, every begun guard gets exactly one outcome in all, and the budget is credited once exactly when the response was good and any stream was read to its end |
| Metrics.ClientMetrics.RecordCompletedSuccess | src/core/metrics.rs:407-414 | one success, one status and one latency sample, saturating |
| Metrics.ClientMetrics.RecordCompletedError | src/core/metrics.rs:305-397 | one failure, one error code and one latency sample; a status error also counts its status |
| Metrics.ClientMetrics.RecordCompletedCanceled | src/core/metrics.rs:399-405 | one cancellation and one latency sample |
| Metrics.PendingRequest.constructor | src/core/metrics.rs:245-261 | a request is counted as started and in flight |
| Metrics.PendingRequest.CompleteSuccess | src/core/metrics.rs:168-175 | one success is recorded and the request leaves flight once, its drop included |
| Metrics.PendingRequest.CompleteError | src/core/metrics.rs:177-184 | one failure is recorded and the request leaves flight once |
| Metrics.PendingRequest.IntoStream | src/core/metrics.rs:186-196 | nothing is recorded and the stream takes over the in-flight guard |
| Metrics.PendingRequest.Drop | src/core/metrics.rs:199-209 | an unfinished request is recorded as cancelled; a finished one is not recorded again |
| Metrics.StreamCompletion.Complete | src/core/metrics.rs:550-592 | the first outcome is recorded and ends the flight; later ones record nothing |
| Metrics.FinishConserves | src/core/metrics.rs:305-414 | ending a request moves it from in flight to exactly one outcome and keeps every total balanced |
| Metrics.SuccessIsCounted | src/core/metrics.rs:407-414 | a success adds one under its own status and moves nothing else but the latency |
| Metrics.FailureIsCounted | src/core/metrics.rs:305-397 | a failure adds one under its own code and, when it is a status error, under that status |
| Metrics.DropIsCancellation | src/core/metrics.rs:550-592 | a stream dropped early is counted as a dropped request is, as one cancellation; its other ends as the same ends of a request |
| Metrics.StartConservesExactly | src/core/metrics.rs:245-280 | one more start keeps the totals balanced if and only if the counter is not full or as many requests are in flight as it can hold |
| Metrics.EveryRunConserves | src/core/metrics.rs:167-261 | over every interleaving of buffered, streamed and dropped requests: started = succeeded + failed + cancelled + in flight, samples = outcomes, codes sum to failures, statuses sum to successes + status errors |
| Metrics.QuiescentTotals | src/core/metrics.rs:542-592 | once nothing is in flight every request that started is counted as exactly one outcome |
| Pem.Find | src/tls.rs:287-294 | returns the first occurrence, and none only when there is none |
| Pem.Newlines | src/tls.rs:417-422 | the length of the leading run of line breaks, after which no line break follows |
| Pem.NextPiece | src/tls.rs:355-427 | a block it finds ends after it begins, so the cursor advances |
| Pem.Look | src/tls.rs:355-427 | one turn of the loop finds the specified next piece, error or end |
| Pem.SkipNewlines | src/tls.rs:417-422 | the block ends after exactly the line breaks that follow its marker |
| Pem.ParseCertificateBlocks | src/tls.rs:343-437 | the loop returns the specified blocks or the specified error for every input, and terminates |
| Pem.AcceptedIsBundle | src/tls.rs:343-437 | on success the input is exactly padding interleaved with well-formed certificate blocks, and those are returned in order |
| Pem.BundleIsAccepted | src/tls.rs:343-437 | every bundle of padding and well-formed blocks parses to exactly its blocks |
| Pem.AcceptsExactlyBundles | src/tls.rs:343-437 | parsing succeeds if and only if the input is such a bundle with at least one block |
| Pem.ErrorsAreTrue | src/tls.rs:355-427 | every error names something wrong where parsing stopped: a stray end marker, data outside, another label, a missing end or a nested begin |
| Pem.ReparsesToItself | src/tls.rs:343-437 | concatenating the returned blocks and parsing again returns the same blocks |
| ContentEncoding.Reader.ReadRetryInterrupted | src/core/util/io.rs:26-37 | returns the first read that is not an interruption |
| ContentEncoding.ReadToEndLimited | src/core/content_encoding.rs:55-83 | collects as specified until the end, a fault or the limit |
| ContentEncoding.GatheredCollects | src/core/content_encoding.rs:55-83 | the outcome depends only on the bytes delivered in all: too large exactly above the limit, undecodable exactly on a fault within it |
| ContentEncoding.DecodeDeflateLimited | src/core/content_encoding.rs:86-100 | tries the zlib wrapper and falls back to raw deflate exactly when that cannot be decoded |
| ContentEncoding.DecodeStage | src/core/content_encoding.rs:156-187 | undoes one coding, named in any letter case, or reports it as unsupported |
| ContentEncoding.ListEncodings | src/core/content_encoding.rs:133-148 | collects the non-empty trimmed names of all field lines in order |
| ContentEncoding.DecodeContentEncodedBodyLimited | src/core/content_encoding.rs:122-191 | undoes the listed codings from the last to the first, as specified |
| ContentEncoding.NeverAboveLimit | src/core/content_encoding.rs:122-191 | whatever the decoders do, no body above the limit is returned |
| ContentEncoding.CutsDoNotMatter | src/core/content_encoding.rs:55-83 | how the readers cut and interrupt their data changes nothing but the size an oversized body is reported with |
| ContentEncoding.CutsShowInTheSize | src/core/content_encoding.rs:72-77 | the same bytes in one read and in two are reported as different sizes |
| ContentEncoding.ListsItsNames | src/core/content_encoding.rs:142-147 | a field line lists exactly the names it is written with, in order, whatever the white space and the empty elements |
| ContentEncoding.DecodingUndoesEncoding | src/core/content_encoding.rs:122-191 | for every list of supported codings, named in any letter case over any field lines with any padding, decoding returns the original if and only if every stage fits the limit, and is too large otherwise |
| ContentEncoding.UnknownIsRefused | src/core/content_encoding.rs:181-186 | a list with a name the build does not know never decodes, and a last such name is reported in lower case |
| ContentEncoding.UnreadableLineIsRefused | src/core/content_encoding.rs:134-141 | a field line that is not visible ASCII makes a body within the limit undecodable |
| ContentEncoding.LinesCombine | src/core/content_encoding.rs:133-148 | two field lines list the same codings as their combination with a comma |

## Left out

- Transport, TLS setup, proxies, DNS, builders, error texts, telemetry and observers: wrappers and configuration.
- The asynchronous upload driver: the same session under the same loop, with awaits.
- Delays and their jitter: when a retry, an upload attempt or a rate-limited call sleeps is not modelled, only that it may.
- Floating-point rounding: buckets, budget and averages are exact; that sleeping for a returned wait is enough is not claimed.
- Hash and compression algorithms: digests are arbitrary functions, injective where a theorem says so; decoders are arbitrary readers, inverse to their encoders where a theorem says so. A zstd decoder that cannot be opened is a reader that faults at once.
- Scope hints in response headers: the scope a server names is a parameter; only its resolution is modelled.
- URI parsing and origin comparison: `resolve` and `sameOrigin` are arbitrary functions, and the credential theorem is about the origin comparison the code makes.
- Headers that interceptors add: a theorem about headers speaks of the headers a turn starts from, since an interceptor may add any to an attempt.
- Time within a request: whether a deadline has passed is an arbitrary answer at each point where the code asks.
- The condition-variable and async wait loops: they are steps of threads and tasks, not loops of a class, so that every interleaving is covered.
- The removal loops of `sanitize_headers_for_redirect`: they are set differences, since the order of removals is not observable.
- Memory order of the metric atomics: an operation of a request is one step, so totals are compared between operations; counters per timeout phase, transport kind and error category are not modelled.
- Which bodies are decoded at all: `should_decode_content_encoded_body` is a finite case split.
- Metrics switched off: all counters then stay zero.
- The bytes of a PEM bundle are characters; parsing looks only at ASCII.
- Which of several equally old idle hosts is evicted first: any of them may be.
- Uploader.Backend.UploadPart: a failed call leaves arbitrary bytes, old, new or none, for its own part, and touches no other.
- Uploader.ResumableUploader.AbortErrorIfConfigured: says nothing about the remote parts after an abort, since aborting may destroy them.
- RateLimiter.ThrottleAcrossEvictions: is about throttles whose end is representable, because the code ignores one that is not.
- RetryBudget.RetriesBoundedOverRuns: takes clock readings in order, which reading a monotonic clock under the lock ensures.
