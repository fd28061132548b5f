# Lease and token protocols of the NestJS backend starter, in Dafny

The backend keeps its concurrency promises with short-lived keys in Redis and conditional updates in
PostgreSQL: an HTTP idempotency lock with a fence, outbox rows leased to workers, e-mail jobs with an
execution lease, a distributed lock, refresh-token families with a per-user index, sessions with a
per-user index, and a fixed-window counter. This project models those protocols and proves what they
keep over every run.

## How the model is built

- **Protocols are state machines.** `Idempotency`, `Outbox`, `DistributedLock`, `RefreshTokens` and
  `EmailWorker` each define a `State`, an `Action` type, `Enabled`/`Apply`, and runs (`Legal`/`Exec`). A Lua
  script, a single Redis command or a single SQL statement is one atomic step; a TypeScript call is a
  process with a program counter, one value for each `await`. Calls, heartbeats, timers, lock loss,
  rejected commands (with or without their effect) and the clock interleave freely.
- **The code itself is imperative.** A class per service (`RedisIdempotencyService`,
  `DrizzleOutboxProcessor`, `RedisDistributedLock`, `RedisJwtTokenStore`, `EmailProcessor`, ...) follows the
  TypeScript statement by statement: loops, flags, `try`/`finally`. At each `await` it lets the `world` field
  move the other calls and the clock. Each of its effects is a step of the machine, recorded in a ghost
  trace, so whatever is proved of all runs holds of it. `OutcomesAreExplained`, `ResultsAreExplained` and the
  modules of effects say what the steps mean without the functions that define them. The Lua scripts are
  written out command by command in `Scripts` and `RedisService` and proved equal to the machine's steps.
- **History fields** (`startedAt`, `produced`, `storedAt`, `evidence`, `firstFailedAt`, `rotated` and their like)
  record what happened. No branch of the modelled code depends on them.
- **Fresh identifiers.** A random token drawn by a call is the number of that call, or any unused number.
- **Time** is a natural number: milliseconds for idempotency, locks and the outbox, whole seconds for the
  token, session, e-mail and rate-limit keys, as the scripts count. A key is served while `now < deadline`.
  A TTL is positive, because Redis refuses any other.
- **Serialization** is injective and invertible, so stored records are datatypes. `SessionStore` is the
  exception: there the reader's defaults for missing fields are modelled.

## Where a promise needs a condition

- **Agreement between callers of one idempotency key** fails if another call is past its fence check with a
  result still to write: the completion script overwrites a result without looking at it.
  `LockLossCanBreakAgreement` is such a run from the start. `AgreementHoldsExactly` gives the condition, under any
  lock loss and any rejected command; with locks renewed in time and a store that answers, `ReadersAgree` needs none.
- **The outbox lease.** A heartbeat writes the time of its tick, and ticks are skipped while it is in flight. So
  interval + d <= lockTtl is enough only while d is below the interval; `LeaseConditionIsExact` has the condition
  for every d. The distributed lock renews from the moment of landing, and there interval + d + e < ttl is exact.
- **The family index.** A purge of refresh-token families loses the index entry of a family saved between its
  `SMEMBERS` and its `DEL`: `SaveInsidePurgeIsLost` builds such a run from every reachable state, and
  `SaveConditionIsExact` says that this is the only way.

The repository's README (line 1550) has the e-mail lease released on an error before the send; the code
also releases it when the send itself rejects (`email.processor.ts:131-134`). The model follows the code, so
`SendsAreARetentionApart` and `OneWelcomePerRetention` count the sends that resolved.

## Model

| member | source | states |
|---|---|---|
| IdempotencyProvenance.InvStep | libs/infrastructure/src/idempotency/idempotency.service.ts:23-279 | every step of every call, with any lock loss and any rejected command, keeps: the stored result is the product of the call that wrote it, and a call about to return has read such a product |
| IdempotencyProvenance.ReturnsAreProducts | libs/infrastructure/src/idempotency/idempotency.service.ts:206-217 | over every run, with no hypothesis at all, a call that returns a response returns the product of a handler run that carried the same request hash, read while that stored result was alive |
| IdempotencyFence.FenceProtects | libs/infrastructure/src/idempotency/idempotency.service.ts:41-149 | if a call takes lock and fence while every other call is harmless (not past its fence check, or only writing a result that lives as long), then however early the lock vanishes and whatever commands are rejected, no other handler starts until that handler fails or the fence or result TTL runs out |
| IdempotencyFence.HarmfulStarts | libs/infrastructure/src/idempotency/idempotency.service.ts:183-204 | each kind of harmful other call (acquiring, double-checking, handling, releasing, dropping the fence, writing a shorter-lived result) has a continuation in which another handler starts while the guard is in force |
| IdempotencyFence.FenceHoldsExactly | libs/infrastructure/src/redis/redis.service.ts:174-181 | with no result in store, the fence protects in all continuations if and only if every other call is harmless at the moment lock and fence are taken |
| IdempotencyAgreement.ExclusiveStep | libs/infrastructure/src/idempotency/idempotency.service.ts:64-149 | while locks are renewed in time and only heartbeats fail, each step keeps the lock with the one call in its critical region and successful runs a result lifetime apart |
| IdempotencyAgreement.LockIsHeld | libs/infrastructure/src/idempotency/idempotency.service.ts:43-89 | in such runs a call between taking and giving back the lock finds its own token in Redis, so there is only one |
| IdempotencyAgreement.SuccessesAreALifetimeApart | libs/infrastructure/src/idempotency/idempotency.service.ts:94-138 | of two handler runs that succeed on one key, one starts only after the other's stored result has expired: at most one succeeds during a result's life |
| IdempotencyAgreement.ReadersAgree | libs/infrastructure/src/idempotency/idempotency.service.ts:219-279 | two calls that return within the life of one result return the same response of the same run and carried that run's hash, whichever path (first read, double check, polling, own completion) they came by |
| IdempotencyAgreement.LockLossCanBreakAgreement | libs/infrastructure/src/redis/redis.service.ts:241-258 | a concrete run with one lock loss in which two calls with one hash return different responses at the same instant |
| IdempotencyConsensus.AloneStep | libs/infrastructure/src/idempotency/idempotency.service.ts:41-149 | under any lock loss and any rejection, each step keeps: either the fence stands and no other call is past its check, or the result of the one call stands; nobody else has one to write |
| IdempotencyConsensus.BystandersAgree | libs/infrastructure/src/idempotency/idempotency.service.ts:23-279 | if every other call stands by (cannot write a result, start a handler or drop the fence) when a call takes lock and fence and no result is in store, then all calls that come to return, until that handler fails or its TTL runs out, give the same answer to the same request hash |
| IdempotencyConsensus.OtherBreaks | libs/infrastructure/src/redis/redis.service.ts:241-258 | each kind of call that does not stand by (acquiring, double-checking, handling, completing, persisting, releasing after a failure, dropping the fence) has a continuation in which two calls return different answers |
| IdempotencyConsensus.AgreementHoldsExactly | libs/infrastructure/src/idempotency/idempotency.service.ts:94-149 | callers agree in all such continuations if and only if every other call stands by at the moment lock and fence are taken |
| IdempotencyOutcomes.ExplainedStep | libs/infrastructure/src/idempotency/idempotency.service.ts:23-279 | every step of every call keeps its standing explained by what its own commands met |
| IdempotencyOutcomes.OutcomesAreExplained | libs/infrastructure/src/idempotency/idempotency.service.ts:23-279 | over every run, in both directions: a call ends with a reused key exactly if it met another request hash in a live result or fence; returns exactly if it read or stored a result of its own hash; with an unknown outcome exactly if it met its own fence and no result, or its last write was rejected; failed exactly if its handler rejected; in progress exactly if it met none of these; a rejected command overrides all that |
| IdempotencyOutcomes.RetriesAreNotReuse | libs/infrastructure/src/idempotency/idempotency.service.ts:206-217 | however often one request is retried under its key, and whatever fails, no call is told that the key was reused |
| IdempotencyOutcomes.HeartbeatNoticesLoss | libs/infrastructure/src/idempotency/idempotency.service.ts:67-87 | a heartbeat renews exactly its own live lock for 30 s; one that misses it or is not answered makes the call know that the lock is lost, and nothing else does |
| IdempotencyOutcomes.OnlyHolderTouchesLock | libs/infrastructure/src/redis/redis.service.ts:108-120 | no call but its holder renews or removes a live lock |
| IdempotencyOutcomes.ArrivesAnew | libs/infrastructure/src/idempotency/idempotency.service.ts:23-35 | a call starts with its hash, its TTL in seconds and nothing behind it |
| IdempotencyWaiting.WaitBegins | libs/infrastructure/src/idempotency/idempotency.service.ts:52-62 | a call that finds the lock held changes nothing and waits for 15 s, with a first look after 100 ms |
| IdempotencyWaiting.SleepsBetweenRounds | libs/infrastructure/src/idempotency/idempotency.service.ts:226-230 | a new round begins only before the deadline, 100 ms after the one before, and the deadline stays |
| IdempotencyWaiting.WaitEndsForAReason | libs/infrastructure/src/idempotency/idempotency.service.ts:219-279 | in every continuation of a wait, "in progress" is answered only after the deadline or once the lock and then the fence were found gone; "outcome unknown" only if the lock was found gone, and then after the deadline or with the fence gone too |
| IdempotencyService.RedisIdempotencyService.Execute | libs/infrastructure/src/idempotency/idempotency.service.ts:23-150 | `execute`, for any schedule of others and any refusals: it is a run of the machine that ends this call with the outcome returned; a returned response is a product for the caller's hash, and every outcome is the one that what the call met explains |
| IdempotencyService.RedisIdempotencyService.Protocol | libs/infrastructure/src/idempotency/idempotency.service.ts:35-149 | fence check, then lock or wait, then attempt and `finally`: it ends the call with an outcome that is exactly explained by what the call met |
| IdempotencyService.RedisIdempotencyService.AcquireAndRun | libs/infrastructure/src/idempotency/idempotency.service.ts:43-149 | past the fence check: the lock is taken and the attempt made, or the call waits; the call is over with the outcome given |
| IdempotencyService.RedisIdempotencyService.CheckEarlier | libs/infrastructure/src/idempotency/idempotency.service.ts:183-204 | the call is settled only by a live result, judged by its hash, by a live fence, as reused or unknown, or by a store error; it goes on only when no fence is alive |
| IdempotencyService.RedisIdempotencyService.Attempt | libs/infrastructure/src/idempotency/idempotency.service.ts:94-138 | the `try` block with its two flags: a response is the one the result key now holds for this hash; `outcomeStored` is set exactly for a response of a handler that succeeded, `handlerSucceeded` exactly if it produced one; the handler ran exactly if it succeeded or failed |
| IdempotencyService.RedisIdempotencyService.StoreOutcome | libs/infrastructure/src/idempotency/idempotency.service.ts:110-138 | the outcome counts as stored exactly when a response is returned; then the result key holds that response for this hash, whichever script wrote it, and unless the lock was lost, lock and fence are gone |
| IdempotencyService.RedisIdempotencyService.GiveBack | libs/infrastructure/src/idempotency/idempotency.service.ts:139-149 | the `finally` block: the lock no longer holds this token and, after a failure, the fence is gone, unless one of these commands is rejected, and exactly then the store error replaces the thrown outcome |
| IdempotencyService.RedisIdempotencyService.PersistAfterLockLoss | libs/infrastructure/src/idempotency/idempotency.service.ts:152-181 | first writer wins: a result alive when the script ran stays, otherwise the own one is stored, and the outcome is what the key then holds judged by its hash; exactly a rejected command gives an unknown outcome |
| IdempotencyService.RedisIdempotencyService.WaitForResult | libs/infrastructure/src/idempotency/idempotency.service.ts:219-279 | the polling loop terminates; it answers from what the keys hold as it ends (a live result judged by its hash, or the fence of another request), with an unknown outcome only if no result is there, and in progress only after 15 s or once the fence is gone |
| IdempotencyService.RedisIdempotencyService.ReadOnceMore | libs/infrastructure/src/idempotency/idempotency.service.ts:262-273 | after a fence without a result: a store error exactly if the read is rejected, else a live result settles it by its hash, else the outcome is unknown |
| IdempotencyService.RedisIdempotencyService.PollOnce | libs/infrastructure/src/idempotency/idempotency.service.ts:229-260 | one round: a live result settles it by its hash, a held lock lets it go on, the live fence of another request settles it as reused, the own fence is remembered, and no fence ends the loop |
| Scripts.IdempotencyKeys.AcquireIdempotencyLockWithFence | libs/infrastructure/src/redis/redis.service.ts:166-195 | the script, command by command, is the machine's atomic acquire: exactly over a dead lock it sets the lock for 30 s and the fence for its TTL, else nothing |
| Scripts.IdempotencyKeys.CompleteIdempotency | libs/infrastructure/src/redis/redis.service.ts:232-272 | the script is the machine's completion: exactly the token holder stores, with the whole TTL, and lock and fence go in the same step; else nothing changes |
| Scripts.IdempotencyKeys.PersistIdempotencyResultBestEffort | libs/infrastructure/src/redis/redis.service.ts:197-226 | a live result survives and is answered; otherwise the new one is stored with its whole TTL and the fence removed; the answer is what the key then holds |
| Scripts.AddToIndex | libs/infrastructure/src/auth/redis-jwt-token-store.service.ts:17-60 | SADD followed by the TTL script is the machine's index update, for a live, an expired and a missing index: the index lives at least as long as the new family and as it would have |
| Scripts.RotateScript | libs/infrastructure/src/auth/redis-jwt-token-store.service.ts:95-137 | the script's three guards and writes are the machine's rotation: it answers 1 exactly when the token is live and its live family names it, and then token and cursor have the whole TTL and the current token is gone; otherwise nothing changes |
| Scripts.RevokeScript | libs/infrastructure/src/auth/redis-jwt-token-store.service.ts:166-211 | the script's writes in its order are the machine's family revocation, with and without a live cursor and record |
| RedisService.RedisService.Set | libs/infrastructure/src/redis/redis.service.ts:17-26 | SET with EX stores value and deadline and touches no other key |
| RedisService.RedisService.Del | libs/infrastructure/src/redis/redis.service.ts:28-30 | the key is gone and no other key is touched |
| RedisService.RedisService.SetIfNotExists | libs/infrastructure/src/redis/redis.service.ts:96-100 | stored exactly when nothing live was there; a live value wins over the newcomer |
| RedisService.RedisService.CompareAndDelete | libs/infrastructure/src/redis/redis.service.ts:108-120 | deletes exactly when the live value is the expected one, so a stale token has no effect |
| RedisService.RedisService.CompareAndExpire | libs/infrastructure/src/redis/redis.service.ts:152-164 | renews exactly when the live value is the expected one, and never changes the value |
| RetryPolicy.DelayGrowsWithinBounds | libs/infrastructure/src/outbox/outbox-processor.options.schema.ts:30-34 | the retry delay is monotone in the attempt, never above the cap, and at least the base when the cap is |
| RetryPolicy.UncappedTotal | libs/infrastructure/src/outbox/outbox-processor.options.schema.ts:30-34 | while uncapped, the delays of all failures but the last of n sum to base * (2^n - 2) |
| OutboxLedger.InvStep | libs/infrastructure/src/outbox/drizzle-outbox-processor.ts:143-329 | every step of any interleaving keeps each row's books and the fencing fact: a row locked by a worker still has the attempt count that worker read |
| OutboxLedger.AttemptsAreRecordedFailures | libs/infrastructure/src/outbox/drizzle-outbox-processor.ts:298-329 | in every reachable state `attempts` equals the number of `markFailed` steps that took effect on the row, although it is an absolute write from a claim-time snapshot |
| OutboxLedger.TerminalRowsStay | libs/infrastructure/src/outbox/drizzle-outbox-processor.ts:271-329 | `processed` and `failed` rows never change again in any continuation |
| OutboxLedger.NoRowIsStranded | libs/infrastructure/src/outbox/drizzle-outbox-processor.ts:153-191 | a row is locked exactly while processing, failed exactly when its attempts are used up, and otherwise claimable exactly from max(availableAt, lockedAt + lockTtl + 1 ms) on |
| OutboxLedger.FailedRowWaited | libs/infrastructure/src/outbox/drizzle-outbox-processor.ts:298-312 | a failed row spent at least the sum of all its retry delays since its first recorded failure |
| OutboxLedger.FailedRowWaitedUncapped | libs/infrastructure/src/outbox/outbox-processor.options.schema.ts:30-34 | while the cap is not reached that time is at least base * (2^maxAttempts - 2) seconds |
| OutboxLedger.ProcessedRowWasRouted | libs/infrastructure/src/events/domain-event.router.ts:17-31 | a processed row had, in one routing that did not time out, exactly the handlers that support its event complete, each once and in the order of the list |
| OutboxLedger.CountersAddUp | libs/infrastructure/src/outbox/drizzle-outbox-processor.ts:42-141 | summed over all calls, processed counters plus marks whose answer was lost equal the processed rows, and a finished call has processed + failed + lost equal to what it selected |
| OutboxLedger.CountersAreProcessedRows | libs/infrastructure/src/outbox/drizzle-outbox-processor.ts:83-89 | when no mark's answer is lost, the processed counters alone are the processed rows |
| OutboxEffects.AppendedRow | libs/infrastructure/src/outbox/drizzle-outbox-writer.ts:19-31 | an appended event is pending, unlocked, without a failure and claimable at once |
| OutboxEffects.ClaimedRows | libs/infrastructure/src/outbox/drizzle-outbox-processor.ts:181-196 | a claim locks exactly its rows for a new worker as of now and hands it their attempt counts; each was due, had an attempt left, and was pending or had outlived its lock; every other row and field stays |
| OutboxEffects.MarkEffect | libs/infrastructure/src/outbox/drizzle-outbox-processor.ts:271-329 | a mark changes the row exactly if its worker still owns it: given back as processed, or with one attempt spent, failed for good after the last, and otherwise available again after min(2^n * base, max) seconds |
| OutboxEffects.MarkCounts | libs/infrastructure/src/outbox/drizzle-outbox-processor.ts:83-108 | and it is counted once: as processed or failed on a hit, as lost on a missed failure; a missed success goes on to be marked failed |
| OutboxEffects.MarkRejectEffect | libs/infrastructure/src/outbox/drizzle-outbox-processor.ts:90-91 | a rejected mark may have had that effect; nothing is counted, and only a rejected `markFailed` ends the call |
| OutboxEffects.RetriesAreDue | libs/infrastructure/src/outbox/outbox-processor.options.schema.ts:30-34 | in every reachable state a pending row with n failures becomes available exactly min(2^n * base, max) seconds after the last one, and a new one as of its creation |
| OutboxEffects.HeartbeatEffect | libs/infrastructure/src/outbox/drizzle-outbox-processor.ts:248-269 | a heartbeat that takes effect on its worker's row locks it as of its tick; any other leaves all rows alone |
| OutboxEffects.FlagsAreCaused | libs/infrastructure/src/outbox/drizzle-outbox-processor.ts:49-72 | the flags of an event are raised by exactly a time-out, and a heartbeat that misses the row or is not answered, and lowered only for the next event |
| OutboxEffects.TroubledEventIsNotProcessed | libs/infrastructure/src/outbox/drizzle-outbox-processor.ts:209-246 | an event whose routing timed out, lost its lease or had a handler fail is never counted as processed by that call, in any continuation |
| OutboxLease.TimelyBeatsExclude | libs/infrastructure/src/outbox/drizzle-outbox-processor.ts:48-113 | let next be the first multiple of the interval above d, which is when the next heartbeat leaves after one that takes d; if next + d is within the lock TTL, no two `route` runs of head rows are of the same row, time-outs included |
| OutboxLease.LeaseConditionIsExact | libs/infrastructure/src/outbox/drizzle-outbox-processor.ts:153-168 | for every heartbeat delay d, that exclusion holds if and only if (floor(d / interval) + 1) * interval + d <= lockTtl |
| OutboxLease.PromptBeatsCondition | libs/infrastructure/src/outbox/drizzle-outbox-processor.ts:53-72 | for delays below the interval the condition is interval + d <= lockTtl |
| OutboxLease.EnvironmentLeavesRoom | libs/infrastructure/src/config/env.schema.ts:194-202 | the accepted settings (interval at most half the TTL) guarantee exclusion for every heartbeat delay below the interval |
| OutboxProgress.NoStarvation | libs/infrastructure/src/outbox/drizzle-outbox-processor.ts:149-191 | without lease loss an eligible row with n older unfinished rows is taken by one of any floor(n * maxAttempts / batchSize) + 1 claim batches, whatever other rows SKIP LOCKED skips and however many newer rows arrive |
| OutboxProcessor.SelectBatch | libs/infrastructure/src/outbox/drizzle-outbox-processor.ts:150-175 | a full set of the oldest claimable rows, in order, that no other transaction holds |
| OutboxProcessor.OldestOther | libs/infrastructure/src/outbox/drizzle-outbox-processor.ts:171-172 | the oldest claimable row not yet taken, or none exactly when there is none |
| OutboxProcessor.DrizzleOutboxProcessor.ClaimPendingBatch | libs/infrastructure/src/outbox/drizzle-outbox-processor.ts:143-198 | the transaction claims the oldest claimable rows for a worker id of its own and is exactly the machine's claim step |
| OutboxProcessor.DrizzleOutboxProcessor.Publish | libs/infrastructure/src/outbox/drizzle-outbox-processor.ts:200-246 | routing handler by handler with the deferred timeout: the event goes on to be marked processed exactly if routing resolves (no handlers at all, or some that support it and none that fails), without a timeout and with ownership kept |
| OutboxProcessor.DrizzleOutboxProcessor.HandleAll | libs/infrastructure/src/events/domain-event.router.ts:28-30 | the loop over the supporting handlers stops at the first that fails, and ends published exactly if none does, in time and with ownership kept |
| OutboxProcessor.DrizzleOutboxProcessor.SendMark | libs/infrastructure/src/outbox/drizzle-outbox-processor.ts:271-329 | a mark that hits gives the row back with its event processed, or one attempt spent and, if another is left, due after min(2^n * base, max) seconds; a miss or a rejection moves the call on without counting, and only a rejected `markFailed` ends it |
| OutboxProcessor.DrizzleOutboxProcessor.ProcessEvent | libs/infrastructure/src/outbox/drizzle-outbox-processor.ts:76-113 | one event ends processed, failed, or lost, never two of them; only a rejected `markFailed` throws |
| OutboxProcessor.DrizzleOutboxProcessor.ProcessPending | libs/infrastructure/src/outbox/drizzle-outbox-processor.ts:42-141 | the batch loop under any schedule: a result's counters are those of its run and account for every selected row; no result exactly on a throw; and every pending row is due exactly when its failures say |
| DistributedLock.LockConditionIsExact | libs/infrastructure/src/locks/redis-distributed-lock.ts:49-96 | with heartbeats that land within any d of their tick and acquisitions answered within any e, `runWithLock` handlers exclude each other if and only if interval + d + e < ttl; since the interval is at least a second, a TTL of a second or less never excludes |
| DistributedLock.HeartbeatNoticesLoss | libs/infrastructure/src/locks/redis-distributed-lock.ts:61-80 | a heartbeat renews exactly its own live lock; one that misses it or is not answered makes the call know that the lock is lost, and nothing else does |
| DistributedLock.OnlyHolderTouchesLock | libs/infrastructure/src/locks/redis-distributed-lock.ts:17-47 | no call but its holder renews or releases a live lock |
| DistributedLock.LossIsReported | libs/infrastructure/src/locks/redis-distributed-lock.ts:84-96 | over every run, a lock counts as lost exactly if some heartbeat missed it while the handler ran, and then the call does not resolve with a value |
| DistributedLockService.RedisDistributedLock.RunWithLock | libs/infrastructure/src/locks/redis-distributed-lock.ts:49-96 | under any schedule and with rejected commands: null exactly when the lock was held; the handler's value exactly when it resolved, no heartbeat had missed the lock by then and the release was answered; after a release that took effect the key does not hold this call's token; a rejected acquisition throws |
| RefreshFamilies.InvStep | libs/infrastructure/src/auth/redis-jwt-token-store.service.ts:34-222 | every script and every step of a purge keeps: live tokens and family cursors name each other, and claims and index entries agree with ownership |
| RefreshFamilies.OneLiveTokenPerFamily | libs/infrastructure/src/auth/redis-jwt-token-store.service.ts:41-62 | a live token is the one its live family's cursor names, so a family has at most one |
| RefreshFamilies.LiveFamilyHasItsToken | libs/infrastructure/src/auth/redis-jwt-token-store.service.ts:95-137 | a live family's cursor names a live token of that family with the same deadline |
| RefreshFamilies.ExchangedAtMostOnce | libs/infrastructure/src/auth/redis-jwt-token-store.service.ts:95-137 | over every run each refresh token is exchanged successfully at most once |
| RefreshFamilies.DeadForever | libs/infrastructure/src/auth/redis-jwt-token-store.service.ts:171-208 | a family that is not live stays dead, and none of its tokens is ever accepted again |
| RefreshFamilies.ReplayKillsFamily | libs/infrastructure/src/auth/jwt-auth-token.service.ts:137-171 | after a refused rotation and the revocation that answers it, no token of the family is accepted in any continuation, whatever came in between (section 4.14.2 of RFC 9700) |
| RefreshEffects.SavedTokenLives | libs/infrastructure/src/auth/redis-jwt-token-store.service.ts:41-62 | a saved token is accepted for its whole TTL and no longer, if nothing else happens |
| RefreshEffects.RotatedTokenLives | libs/infrastructure/src/auth/redis-jwt-token-store.service.ts:114-134 | a successful exchange gives the next token and the cursor a whole TTL of their own |
| RefreshEffects.SaveSparesOthers | libs/infrastructure/src/auth/redis-jwt-token-store.service.ts:41-62 | a save adds its family to its user's index and leaves every other family and index alone |
| RefreshEffects.RotateSparesOthers | libs/infrastructure/src/auth/redis-jwt-token-store.service.ts:95-137 | a refused exchange changes no key, and a successful one only its own family and index |
| RefreshEffects.RevokeSparesOthers | libs/infrastructure/src/auth/redis-jwt-token-store.service.ts:166-211 | a revocation takes the family's keys, its index entry if it was live, and nothing else |
| RefreshEffects.PurgeEndDropsIndex | libs/infrastructure/src/auth/redis-jwt-token-store.service.ts:221 | the end of a purge drops the index of its user and nothing else |
| RefreshPurge.PurgeKillsListedFamilies | libs/infrastructure/src/auth/redis-jwt-token-store.service.ts:213-222 | under any interleaving every family indexed when SMEMBERS ran is dead when the call has returned, and never accepted again |
| RefreshPurge.CoveredStep | libs/infrastructure/src/auth/redis-jwt-token-store.service.ts:34-222 | every step keeps each live family in its owner's index, which lives at least as long, provided running purges still have their user's live families ahead |
| RefreshPurge.IndexCoversLiveFamilies | libs/infrastructure/src/auth/redis-jwt-token-store.service.ts:17-28 | at every second each live family is in its owner's index and does not outlive it, when no save for a user falls inside a purge of that user |
| RefreshPurge.PurgeLeavesNothing | libs/infrastructure/src/auth/redis-jwt-token-store.service.ts:213-222 | under the same hypothesis a purge that returns leaves its user without a live family |
| RefreshPurge.SaveInsidePurgeIsLost | libs/infrastructure/src/auth/redis-jwt-token-store.service.ts:213-222 | from every reachable state, a save inside a purge of its user has a continuation in which the purge finishes and the family is live but in no index |
| RefreshPurge.SaveConditionIsExact | libs/infrastructure/src/auth/redis-jwt-token-store.service.ts:34-222 | after a save, the index covers every live family in all quiet continuations if and only if no purge of that user is in progress |
| JwtTokenStore.RedisJwtTokenStore.CreateFamily | libs/infrastructure/src/auth/jwt-auth-token.service.ts:68-90 | a new family, indexed for its user, with a new token that is accepted for exactly its TTL |
| JwtTokenStore.RedisJwtTokenStore.RotateRefreshToken | libs/infrastructure/src/auth/redis-jwt-token-store.service.ts:86-164 | under any schedule: a rotation that succeeds leaves the current token dead and the next accepted for exactly its TTL; run alone it succeeds exactly for an accepted token |
| JwtTokenStore.RedisJwtTokenStore.RotateSession | libs/infrastructure/src/auth/jwt-auth-token.service.ts:137-171 | under any schedule: the next token accepted for exactly its TTL and the current one dead, or the whole family dead; run alone it succeeds exactly for an accepted token |
| JwtTokenStore.RedisJwtTokenStore.RevokeOne | libs/infrastructure/src/auth/redis-jwt-token-store.service.ts:166-211 | the family is dead afterwards; run alone, every other family keeps its keys |
| JwtTokenStore.RedisJwtTokenStore.RevokeAll | libs/infrastructure/src/auth/redis-jwt-token-store.service.ts:213-222 | under any schedule every listed family is dead at return and the index is gone; run alone the list is the whole index and nobody else's keys change |
| EmailOnce.ExclusiveStep | apps/worker/src/processors/email.processor.ts:48-136 | with leases kept and a store that does not fail, each step keeps one owner per key and sends a retention apart |
| EmailOnce.MarkerStandsForRetention | libs/infrastructure/src/idempotency/redis-job-execution.store.ts:11-42 | even if leases expire at any moment and commands fail: once a call's marker is written, by a command that was answered or by one whose answer was lost, the key stays completed or sent-ambiguous for the whole retention and no call acquires it |
| EmailOnce.SendsAreARetentionApart | apps/worker/src/processors/email.processor.ts:48-136 | of two calls of one key that sent, one acquired only after the other's marker had outlived its retention |
| EmailOutcomes.ExplainedStep | apps/worker/src/processors/email.processor.ts:33-203 | every step of every call keeps its place explained by what it met |
| EmailOutcomes.ResultsAreExplained | apps/worker/src/processors/email.processor.ts:33-203 | over every run, in both directions: a job is skipped exactly if somebody held its key when it tried to acquire; it succeeds exactly if the mail went out and, if keyed, its completion was taken; it is unrecoverable exactly if the mail went out and the lease was lost by then; it throws, to be tried again, exactly if the mail did not go out or the acquisition or completion was rejected |
| EmailOutcomes.LostLeaseIsNotSent | apps/worker/src/processors/email.processor.ts:144-164 | sending starts only after a rendering that resolved while the lease was not known to be lost |
| EmailOutcomes.HeartbeatNoticesLoss | apps/worker/src/processors/email.processor.ts:55-75 | a heartbeat renews exactly its own live lease; one that misses it or is not answered makes the call know that the lease is lost, and nothing else does |
| EmailOutcomes.OnlyOwnerTouchesLease | libs/infrastructure/src/idempotency/redis-job-execution.store.ts:18-38 | no call but its owner renews, completes or releases a live lease; only the ambiguous marker overrides it |
| WelcomeEmail.WelcomeKeyIsInjective | libs/infrastructure/src/events/examples/user-registered.handler.ts:33 | two events share an e-mail key exactly when they are the same event |
| WelcomeEmail.RoutingEnqueues | libs/infrastructure/src/events/examples/user-registered.handler.ts:23-43 | routing a `user.registered` event enqueues one job for it, and routing any other event none |
| WelcomeEmail.DeliveryCallsWorker | libs/infrastructure/src/events/examples/user-registered.handler.ts:30-38 | each delivery of a job is one call of the worker under the key `user-registered:<event id>:welcome` |
| WelcomeEmail.OneWelcomePerRetention | libs/infrastructure/src/events/examples/user-registered.handler.ts:27-43 | however often the outbox routes an event and the queue redelivers, at most one send resolves per event within the retention time |
| WelcomeEmail.EventsDoNotContend | libs/infrastructure/src/events/examples/user-registered.handler.ts:27-43 | deliveries for two events use one key exactly when they are for one event, so no welcome e-mail blocks another |
| EmailProcessing.EmailProcessor.Process | apps/worker/src/processors/email.processor.ts:33-142 | `process` under any schedule is a run of the machine; its result is exactly the one that what the call met explains: a skipped call never had the key, a success and an unrecoverable error mean the mail was sent |
| EmailProcessing.EmailProcessor.Acquire | apps/worker/src/processors/email.processor.ts:48-53 | the key with the whole lease TTL, or the call is over: thrown exactly if the store failed, else skipped |
| EmailProcessing.EmailProcessor.GiveUp | apps/worker/src/processors/email.processor.ts:131-137 | after an error before the mail was out, the lease is no longer this call's, unless the store fails, and the error is thrown |
| EmailProcessing.EmailProcessor.SendMail | apps/worker/src/processors/email.processor.ts:80-104 | the mail goes out only if rendering and sending resolve, and stays in only if one does not or the lease is known to be lost; then the call completes, or marks the key ambiguous if ownership was lost, or releases the lease |
| EmailProcessing.EmailProcessor.AfterSending | apps/worker/src/processors/email.processor.ts:106-130 | a success leaves the key completed for the retention; a lost lease leaves it sent-ambiguous, unless the store fails, with an error without retry; anything else is a rejected completion |
| JobExecutionStore.RedisJobExecutionStore.Acquire | libs/infrastructure/src/idempotency/redis-job-execution.store.ts:11-16 | a token exactly when nothing live is under the key, which then holds it for the lease TTL; otherwise nothing changes |
| JobExecutionStore.RedisJobExecutionStore.Extend | libs/infrastructure/src/idempotency/redis-job-execution.store.ts:18-20 | renews for the whole lease TTL exactly for the owner; otherwise nothing changes |
| JobExecutionStore.RedisJobExecutionStore.Complete | libs/infrastructure/src/idempotency/redis-job-execution.store.ts:22-34 | turns exactly the owner's lease into the completed marker, for the retention TTL; otherwise nothing changes |
| JobExecutionStore.RedisJobExecutionStore.Release | libs/infrastructure/src/idempotency/redis-job-execution.store.ts:36-38 | removes exactly the owner's lease, never a marker or another's lease |
| JobExecutionStore.RedisJobExecutionStore.MarkAmbiguousSent | libs/infrastructure/src/idempotency/redis-job-execution.store.ts:40-42 | writes the marker for the retention TTL whatever the key holds |
| SessionStore.RecordRoundTrip | libs/infrastructure/src/auth/redis-session-store.service.ts:90-118 | a stored record reads back unchanged exactly when its timestamps are not empty; owner and version always survive |
| SessionStore.LegacyRecordsRead | libs/infrastructure/src/auth/redis-session-store.service.ts:86-118 | any stored object with an owner and a version is read: a missing or empty creation time becomes the epoch, a missing activity time the creation time, and the rest stays |
| SessionStore.RedisSessionStore.Elapse | libs/infrastructure/src/auth/redis-session-store.service.ts:18-27 | as time passes exactly the sessions whose deadline comes drop out, and the index still covers the rest |
| SessionStore.RedisSessionStore.Create | libs/infrastructure/src/auth/redis-session-store.service.ts:13-30 | adds one session with its whole TTL to the map and to its user's index, which covers it without a shortened TTL; no other session and no other index changes |
| SessionStore.RedisSessionStore.Get | libs/infrastructure/src/auth/redis-session-store.service.ts:32-44 | reads the map of live sessions |
| SessionStore.RedisSessionStore.Delete | libs/infrastructure/src/auth/redis-session-store.service.ts:46-53 | removes just that session from the map, and from its user's index |
| SessionStore.RedisSessionStore.Prune | libs/infrastructure/src/auth/redis-session-store.service.ts:63-66 | a dead member leaves its index and no live session notices |
| SessionStore.RedisSessionStore.ListByUserId | libs/infrastructure/src/auth/redis-session-store.service.ts:55-76 | lists exactly the user's live sessions, each once with its deadline, and prunes only dead members |
| SessionManagement.RedisSessionManagementService.ListForUser | libs/infrastructure/src/auth/redis-session-management.service.ts:15-33 | exactly the user's live sessions of the current version, each once, with the fields of its record, its deadline and the current one flagged |
| SessionManagement.Select | libs/infrastructure/src/auth/redis-session-management.service.ts:22-32 | the filter and the map: one item for each entry of the version, with that entry's fields |
| SessionManagement.RedisSessionManagementService.RevokeOne | libs/infrastructure/src/auth/redis-session-management.service.ts:35-49 | not found exactly unless the session is live and the user's own; otherwise it alone goes |
| SessionManagement.RedisSessionManagementService.RevokeOthers | libs/infrastructure/src/auth/redis-session-management.service.ts:51-65 | of the user's sessions exactly the current one is left, nobody else's go, and the count is the number removed |
| SessionManagement.RedisSessionManagementService.RevokeAll | libs/infrastructure/src/auth/redis-session-management.service.ts:67-73 | exactly the user's sessions go |
| SessionAccounts.IssuedSessionCounts | libs/infrastructure/src/auth/session-auth-token.service.ts:38-61 | a session issued at the current version is accepted and changes nothing for anybody else |
| SessionAccounts.HistoryKeepsOrStales | libs/domain/src/entities/user.entity.ts:85-117 | whatever transitions a user row goes through, its sessions all stay accepted if they were only Google links, and otherwise none is; nobody else is affected |
| SessionAccounts.PurgedUserHasNothing | libs/infrastructure/src/auth/session-auth-token.service.ts:91-97 | a raised version followed by a purge leaves the user no session and touches nobody else |
| SessionAccounts.SessionAccountService.VerifyAccessToken | libs/infrastructure/src/auth/session-auth-token.service.ts:63-81 | authenticates exactly the accepted sessions, as the user's present row |
| SessionAccounts.SessionAccountService.CreateAuthSession | libs/infrastructure/src/auth/session-auth-token.service.ts:38-61 | adds exactly the new session, with the row's version, the client's data and the whole session TTL, to what is accepted for the user |
| SessionAccounts.SessionAccountService.ReplaceCredentials | libs/application/src/use-cases/auth/change-password.usecase.ts:51-63 | update, purge, re-issue in this order leave exactly the new session, accepted and stored |
| SessionAccounts.SessionAccountService.RevokeAllForUser | libs/infrastructure/src/auth/session-auth-token.service.ts:91-97 | the loop removes exactly the user's live sessions |
| SessionAccounts.SessionAccountService.ChangePassword | libs/application/src/use-cases/auth/change-password.usecase.ts:19-73 | succeeds exactly for an existing user whose stored hash is of the current password given, and a different new one; each refusal has its own reason and changes nothing; on success the row has the hash of the new password, the next version and otherwise the same fields, and the only accepted session is the one just issued |
| SessionAccounts.SessionAccountService.ResetPassword | libs/application/src/use-cases/auth/reset-password.usecase.ts:22-61 | the token is spent in every case; it succeeds exactly for a live token of an existing user, whose row then has the hash of the new password, the next version and otherwise the same fields, and who is left with just the new session |
| JwtAccounts.SavedFamilyCounts | libs/infrastructure/src/auth/jwt-auth-token.service.ts:68-90 | a new family adds exactly its token to what is accepted, for nobody else |
| JwtAccounts.RaisedVersionStales | libs/infrastructure/src/auth/jwt-auth-token.service.ts:108-118 | a raised version makes every access and refresh token delivered to the user unacceptable at once, whatever the token store holds |
| JwtAccounts.HistoryKeepsOrStales | libs/domain/src/entities/user.entity.ts:85-117 | the same for access and refresh tokens: they all stay accepted after Google links only, and otherwise none is |
| JwtAccounts.PurgeKeepsAccepted | libs/infrastructure/src/auth/jwt-auth-token.service.ts:240-242 | a purge changes nothing that is accepted for others |
| JwtAccounts.RevokedStanding | libs/infrastructure/src/auth/redis-jwt-token-store.service.ts:166-211 | a revocation leaves accepted exactly the refresh tokens of other families |
| JwtAccounts.RotationMoves | libs/infrastructure/src/auth/jwt-auth-token.service.ts:137-171 | a rotation moves acceptance from the current refresh token to the next and nothing else |
| JwtAccounts.JwtAccountService.VerifyAccessToken | libs/infrastructure/src/auth/jwt-auth-token.service.ts:92-124 | authenticates exactly the tokens that are signed, unexpired, not denied and of the row's version |
| JwtAccounts.JwtAccountService.CreateAuthSession | libs/infrastructure/src/auth/jwt-auth-token.service.ts:68-90 | adds exactly the new pair to what is accepted for the user, each token for exactly its own TTL |
| JwtAccounts.JwtAccountService.ReplaceCredentials | libs/application/src/use-cases/auth/reset-password.usecase.ts:39-51 | update, purge, re-issue leave exactly the new pair accepted for the user, for its whole TTLs, and every family that was in the user's index dead, and nobody else affected |
| JwtAccounts.JwtAccountService.ChangePassword | libs/application/src/use-cases/auth/change-password.usecase.ts:19-73 | succeeds exactly for an existing user whose stored hash is of the current password given, and a different new one; each refusal has its own reason and changes nothing; on success the row has the hash of the new password, the next version and otherwise the same fields, exactly the pair just issued is accepted and every family indexed before is dead |
| JwtAccounts.JwtAccountService.ResetPassword | libs/application/src/use-cases/auth/reset-password.usecase.ts:22-61 | the reset token is spent in every case; on success the row has the hash of the new password, the next version and otherwise the same fields, exactly the pair just issued is accepted and every family indexed before is dead |
| JwtAccounts.JwtAccountService.RotateAuthSession | libs/infrastructure/src/auth/jwt-auth-token.service.ts:137-171 | the next pair, each token for exactly its own TTL, takes the place of a token the store accepts; otherwise the family is dead |
| JwtAccounts.JwtAccountService.Refresh | libs/application/src/use-cases/auth/refresh-auth-session.usecase.ts:12-39 | succeeds exactly for an accepted token, whose place the next pair takes for its whole TTLs; each refusal has its own reason, one before the store changes nothing, and one by the store kills the family |
| JwtAccounts.JwtAccountService.Revoke | libs/infrastructure/src/auth/jwt-auth-token.service.ts:201-233 | each refusal has its own reason and changes nothing; otherwise the family is dead, the access token never accepted again, and every other token accepted as before |
| RateLimiter.CounterFollowsWindow | libs/infrastructure/src/redis/redis.service.ts:131-150 | the increment script computes the count and end of the current window of the request times |
| RateLimiter.WindowAdmitsUpToLimit | libs/infrastructure/src/rate-limiter/redis-rate-limiter.ts:8-20 | each counter window admits exactly min(requests, limit) |
| RateLimiter.StretchAdmitsLessThanTwiceLimit | libs/infrastructure/src/redis/redis.service.ts:131-150 | any stretch of ttlSeconds, aligned or not, admits at most 2 * limit - 1 requests |
| RateLimiter.StretchBoundIsReached | libs/infrastructure/src/redis/redis.service.ts:131-150 | that bound is reached, for every limit and every TTL above a second |
| RateLimiter.RedisRateLimiter.Check | libs/infrastructure/src/rate-limiter/redis-rate-limiter.ts:8-20 | with one limit and TTL, each verdict, remaining count and reset time is what the window of the request prescribes |

## Left out

- Real I/O: Redis, PostgreSQL, BullMQ, SMTP and S3 appear only through their atomic effect on the state; a rejected command may or may not have had it.
- JWT signing and verification, bcrypt, SHA-256, UUIDs and JSON: claims are those signed, hashes and serialization are injective, identifiers are fresh.
- Key names and the key prefix: each kind of key has a map of its own, so the script's search for its marker in a prefixed key (`redis-jwt-token-store.service.ts:171-178`) always succeeds.
- The request hash is not the empty string, which the source would read as an absent fence.
- Concurrent writes of the user row: an update writes every column from a snapshot, so the password and refresh results take use cases one at a time.
- The session store and its management are sequential, as one caller at a time sees them; a create that overlaps a listing is not modelled.
- Sub-second rounding of Redis TTL replies, clock skew between workers, and timer drift beyond the bound d.
- OutboxLease.TimelyBeatsExclude: is about the head row of each batch; rows waiting behind it are not heartbeaten by the code, so nothing is claimed for them.
- OutboxProgress.NoStarvation: supposes that no other transaction holds the waiting row itself when a claim runs (a claim that does, takes it) and that later rows get a later `created_at`; the code orders by `created_at` only, so ties are broken at will.
- The claim's and a mark's `new Date()` is taken at the step itself, and the answer to the claim arrives with it; only the heartbeat's time, taken when its timer fires, is kept apart from the moment it lands. A slow answer to the claim adds to the time before the first heartbeat.
- A heartbeat's effect and its answer are one moment, the one that d bounds.
- IdempotencyAgreement.ReadersAgree: supposes locks renewed in time and no failing command but heartbeats; `AgreementHoldsExactly` has the condition without either supposition.
- EmailOnce.SendsAreARetentionApart: supposes leases that are renewed in time, a store that does not fail and no crash, the window the repository's own documentation concedes; a rejected send is taken to have delivered nothing.
- The queue's own de-duplication by job id: jobs may be delivered any number of times, which is the weaker assumption.
- The JWT driver without a fresh-user resolver, which keeps accepting outstanding access tokens until they expire; the composition root wires the resolver.
- `set` without a TTL, `scanKeys`, `unlink` and the two-key variant of the completion script: they serve other callers.
- The user summary and the expiry date that the use cases return beside the credentials.
- Password-reset and OAuth state stores beyond consuming a token once, audit logging, mail templates, message ids, Nest modules, controllers and guards.
