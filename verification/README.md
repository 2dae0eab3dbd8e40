# Verified model of policyd-py

policyd-py is an SMTP policy daemon: it counts messages per sender in Redis under one of three rate-limit algorithms,
locks accounts that exceed their limits, and unlocks them later. This project models the parts with real state and
concurrency, and proves what they keep over whole runs:

- the three Lua scripts, the limiter that runs them over several limits, and the read-only usage evaluator;
- adaptive scaling of limits and the refill rate that quota strings get by default;
- account locks, the penalty ladder, the schedule of unlocks and request accounting in the policy handler;
- the circuit breaker around Redis calls;
- the action manager: its provider loop, its metrics, its queue and its shutdown.

Code that updates state in place is modelled by classes, methods and loops (`Redis`, the scripts, `RateLimiter`,
`CircuitBreaker`, `ActionManager`, `PolicyHandler`, `RuntimeStats`, `RequestHandler`, the adaptive and quota loops).
Each method is proved against a function on values; the theorems about runs and interleavings are about that function.
Concurrency is a state machine whose steps are the stretches of code between two awaits: one script, one Redis command,
one critical section.

| file | content |
|---|---|
| `Prelude.dfy` | counting in logs and sequences, rounding |
| `RedisStore.dfy` | hashes with expiry on a millisecond clock |
| `Limits.dfy` | limits and their Redis keys |
| `Scripts.dfy` | the three Lua scripts |
| `KeyRuns.dfy` | one counter over a whole run, with and without expiry |
| `FixedWindowRuns.dfy`, `SlidingWindowRuns.dfy`, `TokenBucketRuns.dfy` | whole-run theorems per algorithm |
| `TokenBucketHistory.dfy` | the closed form of the bucket, and the bucket that refills on every tick |
| `Limiter.dfy` | check, usage and reset |
| `Recheck.dfy`, `ReportedUsage.dfy` | usage against decision, the recheck before an unlock, and what usage means |
| `Composition.dfy` | concurrent checks over several limits |
| `Adaptive.dfy` | scaling of limits |
| `Quotas.dfy`, `QuotaText.dfy`, `QuotaRoundTrip.dfy` | limits from quota strings, their text, and reading back what was written |
| `AccountLocks.dfy`, `ScheduledUnlocks.dfy`, `PutOffUnlocks.dfy`, `PenaltyLadder.dfy`, `LockDurations.dfy`, `LockSafety.dfy`, `UnlockDecisions.dfy`, `TaskOrder.dfy` | interleaved locks, unlocks and penalties |
| `DueTimes.dfy` | the schedule of unlocks with its due times |
| `PolicyHandler.dfy`, `HandlerRuns.dfy` | the handler's methods, and its loops as runs of that model |
| `Accounting.dfy` | request counters |
| `CircuitBreaker.dfy` | the circuit breaker |
| `ActionManager.dfy`, `ProviderCalls.dfy`, `ActionQueue.dfy` | provider loop, metrics, queue and shutdown |

## Conventions and assumptions

- The clock counts milliseconds and never goes back; the window scripts use whole seconds of it. The application and
  Redis share it.
- Doubles are reals. The one rounding kept is the six-decimal format in which a bucket stores its tokens: the hash holds
  millionths, rounded to nearest with ties to even. `StoreError` is half a millionth, or nothing when the bucket gains a
  whole number of millionths each millisecond.
- An expired entry stays in the modelled database and is invisible; "without expiry" means that it stays visible.
- A failed Redis command has no effect. Tasks are not cancelled, and the action manager stays the same throughout.
- The scan of due unlocks may return any scheduled entries, lock keys and penalty keys may vanish at any time, and any
  command may fail, so what is proved covers every timing of expiry, of manual unlocks and of penalty resets.
- The circuit-breaker theorems hold for every sequence of begins, outcomes and resets, so in particular for those that
  overlapping calls can produce.

## Where code and documentation differ

- `README.md:224` of the repository promises at most 100 messages per hour for `100/1h:fixed_window`.
  `PromiseKeptExactlyWhenClosed` shows that a fixed window keeps such a promise only when it admits nothing: two bursts
  put twice the limit into one duration. `SpanBound` is what holds instead.
- The docstring at `policyd_py/storage/circuit_breaker.py:29` speaks of limited calls in the half-open state;
  `HalfOpenAdmitsAnyNumber` shows that the code limits nothing.
- Nothing says that an extended or retried unlock is final, but the code never schedules it again (`PutOffIsFinal`).
- The recheck reads counters under the lower-cased selector while checks charge the selector as sent
  (`RecheckReadsTheSameCounter`).

## Model

| member | source | states |
|---|---|---|
| Limits.KeysAgree | policyd_py/ratelimit/limiter.py:309-314 | two limits share a counter exactly when sender, algorithm and duration agree, whatever their counts and rates |
| Limits.KeyExamples | policyd_py/ratelimit/limiter.py:309-314 | the key of each algorithm, written out |
| Scripts.FixedWindowScript | policyd_py/ratelimit/limiter.py:69-100 | the script, field by field, has the verdict and the effect that the run theorems are about; a denial writes nothing |
| Scripts.SlidingWindowScript | policyd_py/ratelimit/limiter.py:102-147 | the same for the sliding-window counter, roll-over and weighting included |
| Scripts.TokenBucketScript | policyd_py/ratelimit/limiter.py:25-67 | the same for the token bucket, with the six-decimal store |
| FixedWindowRuns.CounterIsAdmissionsSinceStart | policyd_py/ratelimit/limiter.py:78-98 | in every run the counter that a call sees is the number of admissions since its window opened, less than one duration ago |
| FixedWindowRuns.DenialIsJustified | policyd_py/ratelimit/limiter.py:91-93 | a call is denied exactly when that many admissions reach the limit; then the limit was also reached within the last duration |
| FixedWindowRuns.WindowNeverExceeds | policyd_py/ratelimit/limiter.py:91-99 | no counter window holds more than the largest limit that any call used |
| FixedWindowRuns.SpanBound | policyd_py/ratelimit/limiter.py:85-99 | a span that fits in q durations admits at most bound * (q + 1) messages, anywhere in any run |
| FixedWindowRuns.PromiseKeptExactlyWhenClosed | README.md:224 | "at most count per duration" holds of all runs exactly when count is zero; the witness is a run with twice the limit in one duration |
| FixedWindowRuns.ExpiryInvisible | policyd_py/ratelimit/limiter.py:227 | expiry after duration + 60 seconds changes no decision, no usage and no later state |
| SlidingWindowRuns.PairRefinesLog | policyd_py/ratelimit/limiter.py:108-127 | the rolled pair is always the exact number of admissions in the preceding and the current aligned window |
| SlidingWindowRuns.DeniedExactlyWhenFull | policyd_py/ratelimit/limiter.py:129-138 | a call is denied exactly when current * duration + previous * (duration - elapsed), counted in the log, reaches limit * duration |
| SlidingWindowRuns.EstimateBound | policyd_py/ratelimit/limiter.py:116-144 | in every reachable state with an admission in the current window, the estimate less one message lies below the largest limit |
| SlidingWindowRuns.WindowBound | policyd_py/ratelimit/limiter.py:110-144 | every aligned window, past or current, admits at most the largest limit |
| SlidingWindowRuns.StretchBound | policyd_py/ratelimit/limiter.py:110-144 | any stretch of one duration, wherever it starts, admits at most twice the largest limit |
| SlidingWindowRuns.TrailingBound | policyd_py/ratelimit/limiter.py:129-144 | the precise bound on the last duration in terms of the previous window's count and the elapsed time |
| SlidingWindowRuns.AfterSaturatedWindow | policyd_py/ratelimit/limiter.py:129-144 | after a window that used up the limit, at most ceil(limit * elapsed / duration) messages pass by the elapsed second |
| SlidingWindowRuns.ExpiryInvisible | policyd_py/ratelimit/limiter.py:241 | expiry after 2 * duration + 60 seconds changes no decision, no usage and no later state |
| TokenBucketRuns.AllowanceIsMinimum | policyd_py/ratelimit/limiter.py:37-48 | the allowance is the minimum of the capacity and, over every suffix of the log, of capacity plus refill less charges |
| TokenBucketHistory.TokensMatchHistory | policyd_py/ratelimit/limiter.py:34-61 | at any moment of any run of one limit, whatever its rate, the available tokens lie between the allowances that charge one plus and one minus the store error for each admission since the key last expired; both coincide on the grid |
| TokenBucketHistory.AdmittedExactlyWhenRoom | policyd_py/ratelimit/limiter.py:50-60 | a call is admitted exactly when no suffix of the admissions since the key last expired would exceed the capacity plus the refill since it began, up to the store error |
| TokenBucketHistory.SinceIsAll | policyd_py/ratelimit/limiter.py:61-61 | these are all admissions exactly when no two of them, nor the last and now, lie further apart than the time to live |
| TokenBucketHistory.WholeHistoryCounts | policyd_py/ratelimit/limiter.py:34-61 | tokens and decision follow in the same way from the whole history when a full refill takes no longer than the time to live |
| TokenBucketHistory.EagerIsAllowance | policyd_py/ratelimit/limiter.py:37-48 | a bucket that refills and caps on every millisecond and charges each admission holds exactly the allowance |
| TokenBucketHistory.LazyIsEager | policyd_py/ratelimit/limiter.py:34-66 | the lazily refilled bucket, which writes nothing on denial, has the tokens of that eager one up to the store error; on the grid the same tokens and the same decisions |
| TokenBucketHistory.EagerAdmitsTheSame | policyd_py/ratelimit/limiter.py:34-66 | on the grid an eager bucket that decides by its own tokens and forgets when the key does admits exactly the same calls, in every run |
| TokenBucketRuns.StoredTokensInRange | policyd_py/ratelimit/limiter.py:58-60 | for capacities that vary from call to call, stored tokens stay between zero and the largest capacity - 1, next to the time of the last admission |
| TokenBucketRuns.AdmittedHasRoom | policyd_py/ratelimit/limiter.py:50-60 | an admission, under whatever limit of the key, leaves every suffix of the history room for one more under the highest capacity and rate |
| TokenBucketRuns.StretchBound | policyd_py/ratelimit/limiter.py:34-61 | any number of consecutive admissions fits in the highest capacity and what the highest rate gains between the first and the last, whatever limit each call brought |
| TokenBucketRuns.SpanBound | policyd_py/ratelimit/limiter.py:34-61 | the same for any span: n admissions, each counted as one minus the store error, fit in the highest capacity and what the highest rate gains during the span; where that rate does not fill the bucket before expiry, the rate at which expiry fills it takes its place |
| TokenBucketRuns.ExpiryHarmlessExactlyWhen | policyd_py/ratelimit/limiter.py:61-61 | in all runs that mix a set of limits on one key, expiry changes no decision, usage or later state exactly when each of the limits refills completely within its time to live |
| TokenBucketRuns.ExpiryInvisible | policyd_py/ratelimit/limiter.py:213 | for calls that each bring their own limit, all filled within their time to live, expiry changes no decision, no usage and no later state |
| Limiter.RateLimiter.CheckSingleLimit | policyd_py/ratelimit/limiter.py:204-251 | the cached script, then the full one; an error only when both fail, and then nothing is charged |
| Limiter.RateLimiter.CheckLimit | policyd_py/ratelimit/limiter.py:174-202 | the loop over limits has the outcome and the effect of charging them in order up to the first denial or fault |
| Limiter.RateLimiter.GetUsage | policyd_py/ratelimit/limiter.py:253-298 | the usage read from a counter, per algorithm, without writing |
| ReportedUsage.FixedWindowUsage | policyd_py/ratelimit/limiter.py:91-99 | script and read-only evaluator report the admissions since the window opened, the script with the one just made |
| ReportedUsage.SlidingWindowUsage | policyd_py/ratelimit/limiter.py:137-146 | the script reports the estimate over the admissions, the one just made included, rounded up |
| ReportedUsage.TokenBucketUsage | policyd_py/ratelimit/limiter.py:50-66 | the script reports the capacity less what is left, rounded up |
| ReportedUsage.KeyLastsExactly | policyd_py/ratelimit/limiter.py:213-241 | an admission keeps the key for exactly duration + 60 seconds, for a sliding window 2 * duration + 60 |
| Limiter.RateLimiter.ResetLimit | policyd_py/ratelimit/limiter.py:300-301 | only the counter of that sender and limit is dropped |
| Limiter.CheckCharges | policyd_py/ratelimit/limiter.py:177-202 | with distinct keys, each bounded limit before the stopping point is charged exactly once and every other counter is unchanged, the denying one included |
| Limiter.DeniedExactlyWhenOneDenies | policyd_py/ratelimit/limiter.py:195-202 | with distinct keys and no fault, a check is denied exactly when one of its limits alone would deny |
| Recheck.FixedWindowAgrees | policyd_py/ratelimit/limiter.py:259-265 | for a fixed window, usage >= count exactly when the next call would be denied |
| Recheck.SlidingWindowGap | policyd_py/ratelimit/limiter.py:267-288 | on every reachable sliding counter the usage is the estimate rounded up (zero for a window starting at the epoch), so usage >= count exactly when the estimate exceeds count - 1, while denial needs count |
| Recheck.TokenBucketGap | policyd_py/ratelimit/limiter.py:290-298 | for a bucket, usage >= count exactly when no token at all is left, while denial starts below one token; the usage is off by less than one |
| Recheck.IsStillExceedingLimit | policyd_py/policy/handler.py:601-615 | true exactly when some bounded limit, of those given or else of the default quota, reports its count as used up |
| Recheck.RecheckDirections | policyd_py/policy/handler.py:601-615 | over a list of limits: without buckets a denial implies still exceeding, without sliding windows the converse, with fixed windows only both |
| Recheck.RecheckReadsTheSameCounter | policyd_py/policy/handler.py:624-628 | the recheck under the stored selector reads the counter that checks charge exactly when lowering leaves the selector alone; in ASCII, when it has no upper-case letter |
| Composition.InterleavingSafe | policyd_py/ratelimit/limiter.py:174-202 | in every interleaving each counter stands where its own calls alone would have left it, and each check has charged exactly the bounded limits it passed, once each |
| Composition.StepIsLoopTurn | policyd_py/ratelimit/limiter.py:177-202 | a step of the interleaved model is one turn of the loop of the sequential check: what that check has still to do before the step is what it has to do after it, and it ends where the step ends |
| Composition.AloneIsSequential | policyd_py/ratelimit/limiter.py:174-202 | a check that runs to its end with no other check in between leaves the database and gives the answer of the sequential check |
| Composition.AcceptedObeyFixedWindow | policyd_py/ratelimit/limiter.py:205-206 | accepted checks obey the fixed-window bound of each limit they list, however they interleave |
| Composition.AcceptedObeySlidingWindow | policyd_py/ratelimit/limiter.py:207-208 | the same for the sliding-window bound |
| Composition.AcceptedObeyTokenBucket | policyd_py/ratelimit/limiter.py:209-209 | the same for the token bucket, with the highest capacity and rate charged on the key, or the rate at which expiry fills it if that is higher |
| Adaptive.ResolveAdaptiveMultiplier | policyd_py/policy/handler.py:688-715 | the largest applicable factor above one, else the smallest positive one below, else one, clamped and never above the maximum |
| Adaptive.ApplyAdaptiveLimits | policyd_py/policy/handler.py:652-686 | the one multiplier m that the facts yield decides the direction that is counted and, unless it is close to one, scales every bounded limit: count is the least number that is positive and not below count * m, a positive bucket rate becomes the larger of rate * m and one message per duration, the rest stays |
| Adaptive.TopInNumbers | policyd_py/policy/handler.py:672-675 | no scaling passes max(count, 1, ceil(count * maximum)), nor the larger of the rate, rate * maximum and one message per duration |
| Adaptive.CloseToOneExactly | policyd_py/policy/handler.py:656-657 | scaling is skipped exactly when a multiplier up to one misses it by at most a billionth, and one above by at most a billionth of itself |
| Adaptive.ScaledSharesCounter | policyd_py/policy/handler.py:677-685 | scaling moves a limit to no other counter |
| Adaptive.AdaptiveFixedWindowBound | policyd_py/policy/handler.py:672-685 | for any multipliers a fixed window admits at most max(count, 1, ceil(count * maximum)) per counter window, and spans accordingly |
| Adaptive.AdaptiveSlidingWindowBound | policyd_py/policy/handler.py:672-685 | for any multipliers no aligned sliding window admits more than the same ceiling, and no stretch of one duration more than its double |
| Adaptive.AdaptiveBucketBound | policyd_py/policy/handler.py:672-685 | for any multipliers a bucket admits in any span no more than fits in capacity max(count, 1, ceil(count * maximum)) and what the highest scaled rate gains, or expiry of the key if that is more |
| Adaptive.ScaledDefaultFull | policyd_py/policy/handler.py:672-675 | with the default refill, a scaled bucket fills before its key expires exactly when max(count * m, 1) * (1000 * (duration + 60) + 1) >= 1000 * duration * max(1, ceil(count * m)) |
| Adaptive.ScaledExpiryHarmlessExactlyWhen | policyd_py/policy/handler.py:672-715 | in all runs that mix the multipliers a configuration can yield, expiry goes unseen exactly when each of these multipliers satisfies that condition or leaves the limit alone |
| Adaptive.ExampleOutpacesExpiry | config.ini.example:64-75 | the shipped example configuration fails the condition for one message a day: an authenticated sender gets the factor 1.5 |
| QuotaText.ParseRateLimits | policyd_py/config/settings.py:519-572 | the limits of all parts of a quota string in order, or an error as soon as one part raises one |
| QuotaText.ParsePart | policyd_py/config/settings.py:526-570 | one part: unlimited, the forms with a slash, the older form with colons, or text that is passed over |
| QuotaText.LimitsInOrder | policyd_py/config/settings.py:524-572 | each limit comes from a part of its own, parts keep their order, and only parts without a limit are dropped |
| QuotaRoundTrip.DurationReadBack | policyd_py/config/settings.py:575-592 | n is read as n seconds without a unit or with s, as n * 60 with m, n * 3600 with h, n * 86400 with d |
| QuotaRoundTrip.DurationExactly | policyd_py/config/settings.py:575-592 | a text is readable as a duration exactly when it is blank or digits with at most one such letter; any other raises |
| QuotaRoundTrip.MatchesExactlyTheShape | policyd_py/config/settings.py:545-548 | a part is taken for the slash form exactly when it is digits, a slash, a duration without colons and, if anything follows, a colon and two texts around one slash |
| QuotaRoundTrip.ColonFormRead | policyd_py/config/settings.py:560-570 | two numbers around a colon are read as the older form whatever follows: the next part is the rate, the default stands in when it is missing or empty |
| QuotaRoundTrip.OtherPassedOver | policyd_py/config/settings.py:560-562 | a part without a slash that does not begin with two numbers is passed over |
| QuotaRoundTrip.QuotaReadBack | policyd_py/config/settings.py:526-570 | a quota written in any of the five forms, with any algorithm suffix and blanks around it, gives the limit it means, its default rate being count per duration, or raises exactly when a refill that counts is no number |
| QuotaRoundTrip.QuotasReadBack | policyd_py/config/settings.py:519-572 | quotas joined by commas give exactly the limits they mean, one for each and in order |
| Quotas.DefaultRefillMakesExpiryHarmless | policyd_py/config/settings.py:555-569 | with the default refill, expiry is harmless in all runs exactly when the duration is positive or the count zero |
| Quotas.ExplicitRefillHarmlessExactlyWhen | policyd_py/config/settings.py:551-554 | for a part with a refill of tokens (a fraction) per period, expiry of its bucket is harmless in all runs exactly when tokens * (1000 * (duration + 60) + 1) >= 1000 * count * period |
| ScheduledUnlocks.UnlocksConserved | policyd_py/policy/handler.py:480-491 | every claimed unlock is with one poller or worker, on the task list, or ended as unlock, extension or retry; every addition to the schedule is still there, claimed, overwritten or taken out by an operator |
| ScheduledUnlocks.WorkSchedules | policyd_py/policy/handler.py:568-599 | only the schedule step of a lock adds an entry; unlocks, extensions and retries put nothing back |
| UnlockDecisions.EndingFollowsRecheck | policyd_py/policy/handler.py:570-599 | in every interleaving an extension follows a recheck that found the account exceeding, and an unlock one that did not |
| UnlockDecisions.ProviderUnlocksConserved | policyd_py/policy/handler.py:583-599 | unlock calls at the provider are exactly the unlocks that ended as such, raised after the call, or wait to end |
| TaskOrder.ListIsRest | policyd_py/policy/handler.py:524-553 | in every interleaving the task list holds what was listed and not yet taken, in order |
| TaskOrder.TakenInOrder | policyd_py/policy/handler.py:527-540 | a worker begins the task listed first among those not yet taken |
| TaskOrder.LockRequestsConserved | policyd_py/policy/handler.py:549-556 | each lock request handed off waits in the list, was begun by a worker, or was begun in place because the list could not be reached |
| DueTimes.EarlyExactlyWhenAddedAgain | policyd_py/policy/handler.py:447-491 | an entry is claimed before its time exactly when it was added again between the scan that found it and the claim, the last time with a later due time |
| PutOffUnlocks.PutOffSettles | policyd_py/policy/handler.py:575-599 | an extension or a retry of the last open claim leaves the account with its books closed and nothing scheduled, unless a lock of it is near |
| PutOffUnlocks.PutOffIsFinal | policyd_py/policy/handler.py:575-599 | from there on, until a new lock of the account begins, no poller claims it and no unlock of it ends: what was put off stays put off |
| PutOffUnlocks.PutOffHappens | policyd_py/policy/handler.py:427-599 | a run that gets there: lock, due unlock, extension, and the lock key gone without the provider being asked |
| PenaltyLadder.LocksNeverOutrunPenalties | policyd_py/policy/handler.py:397-456 | in every interleaving automatic locks <= penalty increments, and provider calls <= users locked <= locks won |
| LockSafety.WonOnlyWhenFree | policyd_py/policy/handler.py:442-444 | in every interleaving a lock is won only where no lock key is set, and leaves one; only expiry or deletion takes a key away |
| LockSafety.KeyGoneBetweenLocks | policyd_py/policy/handler.py:442-444 | between two locks of one account its key has expired or was deleted |
| LockSafety.LockedMeansScheduled | policyd_py/policy/handler.py:446-451 | each user counted as locked got one entry in the schedule, and nothing else gets one |
| LockSafety.PenaltiesOnlyWhenEnabled | policyd_py/policy/handler.py:411-418 | penalty counters are incremented only when penalties are enabled, and only for a selector |
| PenaltyLadder.SingleWorkerWinsEveryLock | policyd_py/policy/handler.py:397-444 | with one worker, no fault and no manual lock, automatic locks equal penalty increments whenever the worker is idle |
| PenaltyLadder.LadderClimbed | policyd_py/policy/handler.py:415-425 | the k-th increment since the penalty counter was last empty yields step min(k, number of steps), at least one second, for any interleaving |
| PenaltyLadder.LadderNeverShortens | policyd_py/policy/handler.py:415-425 | non-decreasing steps make non-decreasing locks between expiries and resets |
| LockDurations.LocksRunForTheirRungs | policyd_py/policy/handler.py:401-444 | in every interleaving each lock won after a penalty increment runs for the rung of that very increment, any other automatic lock for the default duration, and no two locks are won with the same increment |
| PolicyHandling.PolicyHandler.ResolveLockDuration | policyd_py/policy/handler.py:410-425 | one increment of the penalty counter, the duration of its rung, and the default without penalty or selector |
| PolicyHandling.PolicyHandler.SafeLockUserWithPenalty | policyd_py/policy/handler.py:387-408 | nothing happens where the lock key is set; otherwise, without faults, a lock is won for the rung of the new penalty count, or for the default; it ends as in the interleaved model |
| PolicyHandling.PolicyHandler.SafeLockUser | policyd_py/policy/handler.py:427-458 | nothing happens where the lock key is set; otherwise one lock is won with that duration and, without faults, scheduled, counted and passed to the provider; it ends as in the interleaved model |
| PolicyHandling.PolicyHandler.ProcessUnlockEvent | policyd_py/policy/handler.py:560-599 | without faults, a renewed key and an extension if the recheck found the account exceeding, else an unlock at the provider; after a fault the retry mark; it ends as in the interleaved model |
| UnlockDecisions.UnlockWhenDue | policyd_py/policy/handler.py:560-615 | the same with the recheck: put off exactly when some bounded limit kept with the lock, or of the default quota, is used up under the stored selector or the address |
| PolicyHandling.PolicyHandler.EnqueueUnlock | policyd_py/policy/handler.py:549-558 | a claimed unlock goes to the end of the task list, or is carried out inline when the list cannot be reached |
| PolicyHandling.PolicyHandler.EnqueueLock | policyd_py/policy/handler.py:549-556 | the same for a lock |
| PolicyHandling.PolicyHandler.PollScheduledUnlocks | policyd_py/policy/handler.py:480-491 | one round of the listener, with a fault at any command, ends in the state that its entries give one after the other |
| PolicyHandling.PolicyHandler.ServeTask | policyd_py/policy/handler.py:524-540 | one turn of a worker takes the oldest task and carries it out to its end |
| HandlerRuns.RoundIsRun | policyd_py/policy/handler.py:480-491 | such a round is a run of one poller's steps in the interleaved model, so what holds of every interleaving holds of it |
| HandlerRuns.TurnIsRun | policyd_py/policy/handler.py:524-540 | such a turn is a run of one worker's steps in the interleaved model |
| HandlerRuns.FaultlessRound | policyd_py/policy/handler.py:480-491 | without faults a round moves exactly the due entries, each once and in scan order, from the schedule to the task list |
| Accounting.RequestHandler.Handle | policyd_py/policy/handler.py:216-303 | deferred exactly when over its limit and handed off; the database error exactly when something raises or the verdict is unreadable; rejected exactly when validation refuses it outside monitor-only mode; let through otherwise; and exactly which counters move |
| Accounting.AnswersRight | policyd_py/policy/handler.py:216-303 | the same answers for every answered request of every interleaving |
| Accounting.CountersAreShares | policyd_py/stats/runtime.py:52-106 | in every interleaving each counter is the sum of what the requests have called for so far, by their facts |
| Accounting.CountersMatchAnswers | policyd_py/policy/handler.py:216-303 | at every await of every interleaving each counter is the number of requests so answered, rate_limited equals deferred, adjustments equal relaxed plus tightened |
| Accounting.RequestsConserved | policyd_py/stats/runtime.py:52-106 | with no request under way, accepted + rejected + deferred + errors = requests + requests whose hand-off failed after being counted as deferred |
| CircuitBreaking.CircuitBreaker.Call | policyd_py/storage/circuit_breaker.py:62-80 | one call alone: rejected without effect, or run and recorded |
| CircuitBreaking.CircuitBreaker.RecordFailure | policyd_py/storage/circuit_breaker.py:106-124 | the section that counts a failure, stamps its time and opens the circuit when due |
| CircuitBreaking.CircuitBreaker.RecordSuccess | policyd_py/storage/circuit_breaker.py:97-104 | the section that counts a success while half-open and clears failures while closed |
| CircuitBreaking.CountersMatchHistory | policyd_py/storage/circuit_breaker.py:97-135 | closed: the failure count is the unbroken row of failures recorded in this period, below its threshold; half-open: only successes, all counted, below theirs |
| CircuitBreaking.TransitionsExactly | policyd_py/storage/circuit_breaker.py:62-135 | the exact event at which each state is left, for any overlap of calls |
| CircuitBreaking.OpenAdmitsExactlyAfterTimeout | policyd_py/storage/circuit_breaker.py:64-87 | an open breaker admits a call exactly when the recovery timeout has passed since every failure recorded so far, late ones and earlier periods included, resets or not |
| CircuitBreaking.HalfOpenAdmitsAnyNumber | policyd_py/storage/circuit_breaker.py:64-80 | any number of calls begun while half-open are in flight together |
| ActionManagement.TriedIsPrefix | policyd_py/actions/manager.py:156-176 | an execution tries a prefix of the providers with success only at its end, at most two without continue-on-error |
| ActionManagement.ActionManager.ExecuteSync | policyd_py/actions/manager.py:152-176 | the provider loop makes exactly those attempts, succeeds with the last one, and keeps the metrics equal to the tally of all attempts |
| ActionManagement.ActionManager.RecordMetric | policyd_py/actions/manager.py:184-200 | the entry of that provider counts one more call, and the metrics stay the tally of the attempts made |
| ActionManagement.CallsConserved | policyd_py/actions/manager.py:184-200 | in the metrics, total calls = successes + failures for every provider name |
| ActionManagement.TotalsSumToAttempts | policyd_py/actions/manager.py:184-200 | the totals in the metrics, over all names, add up to the number of attempts |
| ProviderCalls.TotalsOverExecutions | policyd_py/actions/manager.py:152-200 | however executions and status queries interleave, the totals over all names are the calls made: at rest, the sum of the prefix lengths tried and one for each status query |
| ActionManagement.ActionManager.Submit | policyd_py/actions/manager.py:76-102 | refused before start, while closing and when full; otherwise queued, or carried out at once with exactly the attempts of the provider loop |
| ActionManagement.ActionManager.WorkerTurn | policyd_py/actions/manager.py:135-150 | a worker leaves at a sentinel, and reports any task done after exactly the attempts of the provider loop, successful or not |
| ActionManagement.ActionManager.GetAccountStatus | policyd_py/actions/manager.py:104-112 | one attempt at the primary provider, recorded either way |
| ActionQueue.ExecutionSafe | policyd_py/actions/manager.py:53-150 | in every interleaving the queue holds the untaken actions in order of acceptance and then only sentinels, each taken action has one worker or is finished, and join's counter matches |
| ActionQueue.CleanShutdown | policyd_py/actions/manager.py:59-74 | when providers are closed every accepted action has been taken and attempted, every worker has left, the queue is empty |
| ActionQueue.NothingAcceptedAfterClose | policyd_py/actions/manager.py:80-81 | once closing has begun no action is accepted |
| ActionQueue.AcceptedExactlyWhenRoom | policyd_py/actions/manager.py:76-87 | an action is accepted exactly when close has not begun and the queue holds fewer than its size, at least one |
| ActionQueue.WorkersStay | policyd_py/actions/manager.py:53-57 | as many workers as configured, at least one |
| ActionQueue.TicketsKeepTheirTaker | policyd_py/actions/manager.py:135-150 | accepted and taken only grow, and a taken action keeps its one worker |
| ActionQueue.CloseNeverStuck | policyd_py/actions/manager.py:59-67 | from the call of close until the providers are closed some worker or close itself can always move, however small the queue |
| ActionQueue.CloseTerminates | policyd_py/actions/manager.py:59-74 | however many submissions are refused meanwhile, a run after the start of close holds at most the predicted number of moves of workers and close, and that many exactly when the providers are closed |

## Left out

- TokenBucketHistory.TokensMatchHistory: the closed form is for one capacity and rate throughout; for limits that change from call to call `TokenBucketRuns.HistoryCovers` gives its upper half.
- Adaptive.AdaptiveFixedWindowBound: speaks of one configured limit on its counter; two limits of different count on one key are covered by `FixedWindowRuns.SpanBound` with the larger ceiling.
- Adaptive.AdaptiveBucketBound: the same, with `TokenBucketRuns.SpanBound`.
- A sliding window with duration zero: the Lua script then computes with NaN.
- A hash that lacks some of the fields its script writes, and hashes written by anything but the scripts.
- Manual resets within a run: `ResetLimit` is modelled, but the run theorems have no deletions.
- Due times in the interleaved lock model, where the scan may return any scheduled entry; `DueTimes` follows them on the schedule alone.
- Lower-casing of letters outside ASCII in penalty keys.
- QuotaText.ParseRateLimits: digits, blanks and letters outside ASCII, and how the text of a fraction is read (a parameter, without infinities and NaN).
- Which domain, account or address is trusted, local or blacklisted, policy matching, and validation: their verdicts are inputs.
- A forced unlock by an operator as a method: the lock key that it deletes and the entry that it removes appear as the events `LockGone` and `Unscheduled`.
- Notifications and their cooldown, usage strings, log text, durations in the provider metrics, the connection gauge.
- Restarts, hot reload of configuration, cancelled listeners, a second call of close, and actions of unknown kind.
- The Redis client wrapper, the servers, LDAP, webhooks, scripts and multi-server aggregation: input and output without state of their own.
