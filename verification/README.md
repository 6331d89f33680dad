# ShieldStream in Dafny

A model of the parts of ShieldStream whose correctness is hard to see by reading the
code: the analytics delivery pipeline, rate limiting, EWMA anomaly scoring, policy caching
with push invalidation, and the alert consumer. `dafny verify dfyconfig.toml` covers the
whole project.

## How the model is built

Code that interleaves (Redis Streams consumers, policy readers, admins and listeners) is a
transition system: a state, a set of labels for the atomic steps, and a function that
applies a label. A label that is not enabled leaves the state as it is, so every sequence
of labels is a run and the theorems quantify over all of them. State fields described as
history record what happened and influence no step. The loops and objects of the code are
methods and classes; each is proved against a function, or shown to be a run of the
transition system (`trace`). Where others can act while a loop runs, its steps are separate:
before each of them the method takes an arbitrary sequence of other agents' steps (`others`,
`e0`, `e1`, ...), and `Mine(trace, ..)` says which steps of the run are its own. The functions
the methods are proved against are described once more without themselves, by sets of
positions and literal constants (members ending in `ByHand`, `Iff` or `Means`).

| file | what it models |
|---|---|
| Prelude.dfy | options, order-independent sums, duplicate-free sequences |
| Aggregate.dfy | parsing, minute buckets, nearest-rank percentiles, group-by of a batch |
| MetricsTable.dfy | the incrementing upsert and the table in closed form |
| Delivery.dfy | the analytics consumer group as a protocol |
| DeliverySafety.dfy, DeliveryDuplicates.dfy, DeliveryExactness.dfy | where every entry is; the account of duplicates; when counting is exact |
| DeliveryHistory.dfy | exactly when each recorded fact of a run is recorded |
| DeliveryInterference.dfy, OrphanScan.dfy | what others can do between two steps of a consumer; XAUTOCLAIM's cursor |
| DeliveryExamples.dfy | runs in which entries are lost, held twice or left behind |
| AnalyticsWorker.dfy | the consumer's recovery, sweep and main loops |
| SlidingWindow.dfy | the Lua script, every run of it, and the client that calls it |
| FallbackLimiter.dfy | the in-memory limiter with stale-key eviction |
| RateLimitGate.dfy | enforce_rate_limit and N replicas sharing one Redis |
| Ewma.dfy | baselines, z-scores, and the dictionary of baselines |
| PolicyCache.dfy | cache keys, lookups, guarded updates and invalidation as a protocol |
| PolicyStaleness.dfy, PolicyLocking.dfy, PolicyFlush.dfy | age of answers; optimistic locking; what a finished flush guarantees |
| PolicyQuery.dfy | route patterns, the longest match, and what every answer of every run is |
| PolicyInterference.dfy, PolicyService.dfy | what others can do in between; get_policy, update_policy and the listener as the code runs them |
| AlertDelivery.dfy, AlertWorker.dfy | the alert consumer group and its loops |
| RedisStream.dfy, StreamGroups.dfy | the Redis stream with its groups by name; both consumers on it |
| EndToEnd.dfy | from the events the gateway emits to the table |
| Dedup.dfy, RpsWindow.dfy | alert deduplication; per-second counters |

## Where the code and its comments differ

The model follows the code.

- The upsert is called an idempotent increment (consumers/analytics/worker.py:8-10). It adds,
  so replaying a batch always changes the table: `MetricsTable.ReplayIsCountedAgain`. What
  holds is one extra commit at most per stop before the XACK and per claim from a live
  process: `DeliveryDuplicates.DuplicatesPaidFor`. Both causes do occur:
  `DeliveryDuplicates.StopCountsTwice`, `DeliveryDuplicates.OwnClaimCountsTwice`.
- Reading back one's own pending entries is called always safe because nobody else holds
  them (consumers/analytics/worker.py:143-145). After a claim from a live process somebody
  does: `DeliveryExamples.ReadBackWhileHeld`. Without such a claim or a stop before an XACK
  nobody does: `DeliveryExamples.HeldElsewhereIsDisturbed`.
- A malformed event is said never to wedge the consumer (consumers/analytics/aggregate.py:30-35).
  One whose timestamp lies outside the years 1 to 9999 parses, but minute_bucket raises on it
  outside parse_event. It is never written and stays pending until it is trimmed:
  `DeliverySafety.UndatableStaysPending`. Recovery raises on it at every start:
  `AnalyticsWorker.Worker.RecoverOwnPending`.
- A loss is said not to be fine (consumers/alerts/worker.py:9-12). Trimming loses entries in
  two ways. One trimmed while pending reads back empty and is acknowledged unwritten:
  `DeliveryExamples.TrimmedWhilePending`, exactly the entries trimmed when they are read back:
  `DeliveryExamples.ReadsBackEmptyIff`; or XAUTOCLAIM drops it from the pending list (Redis 7).
  One trimmed before the group reads it is never delivered at all:
  `DeliverySafety.TrimmedUnread`, exactly the entries trimmed at the moment of the read:
  `DeliverySafety.SkippedIff`.
- Entries idle past the threshold are said to be adopted (consumers/analytics/worker.py:165-167).
  The sweep ends at a call that claims nothing. A call looks at 5000 pending entries at most,
  and each entry it only deletes because it was trimmed counts towards its 500. So the first
  idle entry still in the stream is claimed exactly when fewer than 5000 pending entries lie
  before it and fewer than 500 of those are trimmed: `OrphanScan.SweepFindsIff`. Behind 500
  trimmed ones it stays: `DeliveryExamples.OrphanBehindDeleted`.
- A policy is said to be at most 10 s old (gateway/app/policy_invalidation.py:4-7). A fill
  can store a value read before a commit, so the bound is 10 s plus the time between a
  reader's database read and its cache write, and no smaller bound holds:
  `PolicyStaleness.StalenessIff`. The 10 s alone hold exactly when that time is zero:
  `PolicyStaleness.TenSecondsIff`.
- Push invalidation is said to need the TTL only when a message is missed
  (gateway/app/policy_invalidation.py:3-7). A completed flush is not enough while a value read
  before the update is still to be cached: `PolicyFlush.OlderFillBreaksFlush`. It is final
  exactly when nothing older is cached and no such fill is in flight: `PolicyFlush.FinalIff`.
- The fallback limiter evicts after 300 s whatever the window is. That is invisible exactly
  for windows of at most 300 s: `FallbackLimiter.EvictionInvisibleIff`.
- The window guarantee of the script assumes one clock. With stamps within h milliseconds of
  Redis's clock the limit holds on every interval of length W - 2h and on no longer ones,
  for every limit: `SlidingWindow.BoundIsSharp`.

## Assumptions

Clocks are parameters and never read. Monotonicity, skew bounds and fresh request ids are
stated as `requires` (`WellTimed`, `ChecksTimed`, `Monotone`); a stamp's distance from Redis's
clock includes the time the request is under way. Floats are exact reals; `var**0.5` is a value
`root` with `root >= 0` and `root * root == var`. Text-to-number conversions are
arbitrary functions; only numbers that were emitted are asked to read back. The policy query is
any function of the tenant's rows and the route, and in PolicyQuery.dfy the one the code sends.
Tenants are uuids, without separators of keys.
One process per consumer name. XAUTOCLAIM walks the pending list as Redis 7.4 does, 5000
entries at most per call.

## Model

| member | source | states |
|---|---|---|
| Aggregate.EventRoundTrip | consumers/analytics/aggregate.py:29-49 | what the gateway emits parses back to the same event if its numbers read back, and an entry without fields is poison |
| Aggregate.ParsesIff | consumers/analytics/aggregate.py:36-49 | an entry is not poison exactly when its seven fields are there and its four numbers convert, and each field of the event is the one it is read from |
| Aggregate.MinuteBucket | consumers/analytics/aggregate.py:52-55 | the bucket is the minute that contains the timestamp |
| Aggregate.AggregateByBucket | consumers/analytics/aggregate.py:103-128 | every event has its row and no other, each counter is the number of events of that tenant, endpoint, method and minute in the status range, the latencies are the unblocked ones in order; it raises exactly if some timestamp lies outside the years 1 to 9999 |
| Aggregate.CountPermutation | consumers/analytics/aggregate.py:103-128 | group-by counts depend only on the multiset of events |
| Aggregate.ColumnLaws | consumers/analytics/aggregate.py:115-126 | total minus blocked is the sample count, the status classes never exceed the total |
| Aggregate.CountsAreByHand | consumers/analytics/aggregate.py:108-126 | the counters of a key are the numbers of positions with its tenant, endpoint, method, minute and status range |
| Aggregate.RowIsUnique | consumers/analytics/aggregate.py:109-113 | no event belongs to two rows |
| Aggregate.SortedIsSorted | consumers/analytics/aggregate.py:85 | sorting gives an ascending permutation |
| Aggregate.PercentileIsNearestRank | consumers/analytics/aggregate.py:58-63 | the percentile is a sample with at least p*n samples at or below it and fewer than p*n below it |
| Aggregate.NearestRankUnique | consumers/analytics/aggregate.py:58-63 | that description fits one value only |
| Aggregate.PercentileOrder | consumers/analytics/aggregate.py:85-87 | p50 is at most p99 and both are samples |
| Aggregate.PercentilesByHand | consumers/analytics/aggregate.py:58-63 | half of the samples are at or below p50 and less than half below, and 99 of 100 for p99 |
| MetricsTable.WriteBatch | consumers/analytics/worker.py:127-134 | aggregating and upserting row by row yields the key-by-key merge of the batch into the table, and writes nothing when a timestamp has no date |
| MetricsTable.TableIsGroupBy | consumers/analytics/worker.py:84-112 | after any sequence of batches: a row exactly per key that occurred, counters equal to plain counts over all events, percentiles equal to the sample-weighted average of the batch percentiles |
| MetricsTable.TableByHand | consumers/analytics/worker.py:84-112 | after any batches every committed event has its row and the counters are the numbers of committed events in it |
| MetricsTable.StoredRowLaws | consumers/analytics/worker.py:90-103 | sample count is total minus blocked, status classes at most total, percentiles NULL exactly without samples |
| MetricsTable.StoredPercentileRange | consumers/analytics/worker.py:96-111 | stored percentiles lie between smallest and largest unblocked latency, p50 at most p99 |
| MetricsTable.BatchOrderIrrelevant | consumers/analytics/worker.py:90-111 | the whole table is the same in whatever order batches land |
| MetricsTable.CountersIgnoreBatching | consumers/analytics/worker.py:90-95 | counters depend only on the multiset of events, not on batch boundaries |
| MetricsTable.ReplayIsCountedAgain | consumers/analytics/worker.py:90-95 | committing a batch again leaves the table unchanged only if the batch is empty |
| DeliverySafety.StepKeeps | consumers/analytics/worker.py:127-182 | every step of every consumer keeps the protocol invariant |
| DeliverySafety.AtLeastOnce | consumers/analytics/worker.py:127-182 | in every run an appended entry waits to be read, was delivered, or was trimmed before anybody read it; a delivered one is pending, acknowledged or purged; an acknowledged one was committed, unparsable, or trimmed while pending |
| DeliverySafety.SkippedIff | consumers/analytics/worker.py:204-207 | a read passes an entry by without delivering it exactly when the entry is trimmed by then |
| DeliverySafety.TrimmedUnread | gateway/app/event_emitter.py:47-52 | a run in which an entry is trimmed before the group reads it and is never delivered |
| DeliverySafety.UndatableStaysPending | consumers/analytics/aggregate.py:52-55 | in every run a delivered entry that parses but has no date is never committed and stays pending until it is trimmed |
| DeliveryExamples.ReadsBackEmptyIff | consumers/analytics/worker.py:147-159 | a page read back leaves a parsable entry unwritten exactly when the entry is trimmed at that read |
| DeliveryExamples.TrimmedWhilePending | consumers/analytics/worker.py:147-159 | a run in which an entry trimmed while pending is acknowledged, parsable and never committed |
| DeliveryExamples.ReadBackWhileHeld | consumers/analytics/worker.py:143-145 | a run in which recovery reads back an entry that another live consumer still holds |
| DeliveryExamples.HeldElsewhereIsDisturbed | consumers/analytics/worker.py:143-145 | in every run an entry held by a process that does not own it was claimed from a live process or stopped on before an XACK |
| DeliveryDuplicates.StepBalanced | consumers/analytics/worker.py:127-182 | commits made plus commits still possible never exceed one plus the stops and live claims of the entry |
| DeliveryDuplicates.DuplicatesPaidFor | consumers/analytics/worker.py:127-182 | in every run an entry is committed at most once plus once per stop before XACK and per claim from a live process |
| DeliveryDuplicates.StopCountsTwice | consumers/analytics/worker.py:131-136 | a run in which a stop between commit and XACK counts an entry twice |
| DeliveryDuplicates.OwnClaimCountsTwice | consumers/analytics/worker.py:171-178 | a run in which one consumer that never stops claims its own batch and counts an entry twice |
| DeliveryExactness.StepClean | consumers/analytics/worker.py:127-182 | an undisturbed entry has at most one holder, its owner, and is committed exactly once when written and never otherwise |
| DeliveryExactness.TableCountsCommitted | consumers/analytics/worker.py:84-136 | in every reachable state the counters are the group-by of the committed multiset |
| DeliveryExactness.UndisturbedCommits | consumers/analytics/worker.py:127-182 | without stops and live claims the committed multiset is exactly the accepted acknowledged entries |
| DeliveryExactness.UndisturbedIsExact | consumers/analytics/worker.py:127-182 | ... and the table equals the aggregate of those events |
| DeliveryHistory.PageIsLowest | consumers/analytics/worker.py:147-152 | a recovery page holds the lowest of the consumer's pending ids in order, all of them unless it is full |
| DeliveryHistory.DeliveredMeans | consumers/analytics/worker.py:204-207 | an entry is recorded as delivered exactly when a ready process's read reaches it |
| DeliveryHistory.RacedMeans | consumers/analytics/worker.py:171-178 | a live claim is recorded exactly when a claim takes an entry that a live process holds |
| DeliveryHistory.StoppedMeans | consumers/analytics/worker.py:131-136 | a stop is recorded exactly when a process ends with the entry on a written page |
| DeliveryHistory.CutMeans | gateway/app/event_emitter.py:47-52 | an entry is recorded as cut exactly when it is trimmed while pending |
| DeliveryHistory.AckedMeans | consumers/analytics/worker.py:135-136 | an entry is recorded as acknowledged exactly when a written page with it is acknowledged while it is pending |
| AnalyticsWorker.Worker.RecoverOwnPending | consumers/analytics/worker.py:140-161 | whatever others do before each step, it ends with nothing pending for this consumer, and what was pending is settled or claimed by another; it raises only when the database or Redis fails or on an entry without a date, then loses nothing, and such an entry not trimmed or claimed makes it raise |
| AnalyticsWorker.RecoveryPage | consumers/analytics/worker.py:147-159 | with anything done by others between read, commit and XACK, every page of at most 1000 strictly shrinks the consumer's pending set and settles what was on it; a page with an undatable entry is not written |
| DeliveryInterference.OthersNeverAdd | consumers/analytics/worker.py:140-145 | no other consumer's step adds to a consumer's pending set |
| DeliveryInterference.ForeignRun | consumers/analytics/worker.py:140-145 | any run of others' steps leaves this process's memory alone, adds nothing to its pending set and takes back no history |
| DeliveryInterference.AckSettles | consumers/analytics/worker.py:135-136 | acknowledging a written page settles all its entries, whatever happened to them since they were read |
| AnalyticsWorker.Worker.Poll | consumers/analytics/worker.py:200-231 | one iteration, others acting before each step, flushes exactly when the batch is full or five seconds old and can be written, raises if it cannot, never holds more than 1000 events or 1999 ids, settles all it flushed and keeps the lists equal to the process's memory |
| AnalyticsWorker.Worker.Consume | consumers/analytics/worker.py:208-223 | every id and exactly the parsed events are appended in order |
| AnalyticsWorker.Worker.AdoptOrphaned | consumers/analytics/worker.py:164-182 | page by page along the cursor, others acting before each step, what is claimed is settled; it stops on its own unless the stream outgrows its pages; after a sweep that reached the end no pending entry is one delivered 30 s or more before it began; the main loop's lists stay as they were |
| OrphanScan.ScanTakes | consumers/analytics/worker.py:171-174 | one XAUTOCLAIM takes exactly the idle or vanished entries between its cursor and the next one |
| OrphanScan.ScanFindsIff | consumers/analytics/worker.py:171-180 | a call with given count and attempts claims something exactly when fewer pending entries than attempts lie before the first idle one still in the stream and fewer than count of them are trimmed |
| OrphanScan.SweepFindsIff | consumers/analytics/worker.py:171-180 | the sweep's call claims something exactly when fewer than 5000 pending entries lie before the first one idle for 30 s and still in the stream and fewer than 500 of them are trimmed |
| OrphanScan.ClaimedAreIdle | consumers/analytics/worker.py:171-174 | a call claims at most 500 entries, each in the stream and pending for 30 s or more |
| DeliveryExamples.OrphanBehindDeleted | consumers/analytics/worker.py:171-180 | a run after which 500 trimmed pending entries hide an idle one from the sweep |
| OrphanScan.ClaimSweeps | consumers/analytics/worker.py:170-180 | each page extends the part of the list without old deliveries to the next cursor |
| SlidingWindow.WindowNeverExceeded | gateway/app/lua/sliding_window.lua:28-44 | with stamps within d/2 of Redis's clock no interval of length W - d holds more than limit admissions, by either clock, despite purge and expiry |
| SlidingWindow.LostIsOld | gateway/app/lua/sliding_window.lua:28-37 | an admission no longer counted is W - d away from the current request on both clocks |
| SlidingWindow.BoundIsSharp | gateway/app/lua/sliding_window.lua:28-44 | for every limit, window and skew the limit holds on all intervals of a length exactly when it is at most the window less the skew, an odd skew counting one less |
| SlidingWindow.ScriptIsIdeal | gateway/app/lua/sliding_window.lua:28-44 | on one clock every answer, remaining budget included, is that of a limiter that keeps every admission forever |
| SlidingWindow.BurstAdmitsLimit | gateway/app/lua/sliding_window.lua:31-44 | n requests at one instant on an empty key get exactly min(n, limit) admissions |
| SlidingWindow.RedisServer.EvalSha | gateway/app/lua/sliding_window.lua:22-44 | the script's commands in order compute the atomic step, on this key only; an admitted id is stored with its stamp and the key expires a window later |
| SlidingWindow.RateLimiter.Check | gateway/app/rate_limiter.py:37-64 | an answer means the script ran exactly once with the millisecond stamp, an error that it ran at most once; one flush of the script cache is survived |
| FallbackLimiter.Limiter.EvictStale | gateway/app/fallback_limiter.py:48-52 | exactly the keys idle for more than 300 s leave both dictionaries |
| FallbackLimiter.Limiter.InMemoryCheck | gateway/app/fallback_limiter.py:35-45 | keys idle over 300 s are forgotten, and a call is admitted exactly when fewer than ten times the limit of the bucket's times are inside the window |
| FallbackLimiter.AlwaysTidy | gateway/app/fallback_limiter.py:38-52 | after every call the dictionaries have equal keys and none is idle for more than 300 s |
| FallbackLimiter.EvictionInvisible | gateway/app/fallback_limiter.py:35-52 | with windows of at most 300 s on a key every decision is that of a limiter that never evicts |
| FallbackLimiter.LongWindowForgets | gateway/app/fallback_limiter.py:15-52 | any longer window has a run in which a full bucket is readmitted |
| FallbackLimiter.EvictionInvisibleIff | gateway/app/fallback_limiter.py:15-52 | eviction is invisible for a policy exactly when its window is at most 300 s |
| FallbackLimiter.AdmittedIff | gateway/app/fallback_limiter.py:35-45 | on a monotone clock and one window of at most 300 s per key a call is admitted exactly when fewer than ten times its limit of the key's earlier admissions lie inside its window |
| FallbackLimiter.FallbackBurst | gateway/app/fallback_limiter.py:8-45 | n calls at one instant on a fresh limiter get exactly min(n, ten times the limit) admissions |
| FallbackLimiter.CheckBounded | gateway/app/fallback_limiter.py:41-44 | admitting one more keeps every true-time interval of length W - d within ten times the limit |
| RateLimitGate.Replica.Enforce | gateway/app/middleware/rate_limit.py:49-120 | no policy means unlimited; 503 exactly if Redis failed and the replica fails closed; otherwise Redis's answer and remaining budget, or the fallback's at ten times the limit with its own later clock reading; only the tenant's and route's own Redis key is touched |
| RateLimitGate.RedisKeyInjective | gateway/app/rate_limiter.py:37 | for tenants without a brace equal Redis keys mean equal tenant and route |
| RateLimitGate.FallbackKeyInjective | gateway/app/fallback_limiter.py:35 | for tenants without a colon equal fallback keys mean equal tenant and route |
| RateLimitGate.EnforceIsRun | gateway/app/middleware/rate_limit.py:63-81 | what Enforce does is the script step, unless it never ran, and the fallback step, unless Redis answered, and it admits exactly when they do |
| RateLimitGate.RedisIsScriptRun | gateway/app/rate_limiter.py:37-64 | whatever replicas make of replies, the key in Redis is the run of the scripts executed on it |
| RateLimitGate.AdmissionsBounded | gateway/app/middleware/rate_limit.py:63-81 | however Redis comes and goes, replies are lost or late and requests overtake each other, N fail-open replicas admit at most (1 + 10 N) * limit per key in any interval of length W - d, failing closed at most limit |
| Ewma.EndpointBaseline.UpdateAndScore | consumers/alerts/statistical.py:41-59 | one update of mean, variance and count; no score before the twentieth sample, then the deviation from the old mean over the root of the new variance, at least a millionth |
| Ewma.WeightsSumToOne | consumers/alerts/statistical.py:44-50 | the EWMA weights of any number of samples sum to one |
| Ewma.FoldIsExact | consumers/alerts/statistical.py:44-50 | the incremental mean and variance are the exact weighted mean and variance of all samples |
| Ewma.ScoresByHand | consumers/alerts/statistical.py:41-59 | a fresh baseline gives no score for the first 19 samples, and from then on the score times the floored deviation is the distance from the weighted mean of all earlier samples |
| Ewma.FoldBounds | consumers/alerts/statistical.py:44-50 | samples in [lo, hi] keep the mean there and the variance within (hi - mean)(mean - lo) |
| Ewma.ScoreBounded | consumers/alerts/statistical.py:48-59 | every score is within 10/3 of zero |
| Ewma.FlatBaselineSpike | consumers/alerts/statistical.py:48-59 | on a flat baseline any spike scores exactly 10/3 |
| Ewma.AlertCondition | consumers/alerts/worker.py:138-139 | z > 3 exactly when the deviation exceeds 3e-6 and 19 d^2 > 810 times the previous variance |
| Ewma.ConsecutiveAlertsGrow | consumers/alerts/worker.py:136-140 | k alerts in a row need the squared deviation to grow by more than 729/190 each time |
| Ewma.BaselineStore.ScoreRps | consumers/alerts/statistical.py:65-71 | only the named endpoint changes, a missing one starts cold |
| Ewma.BaselineStore.EvictIdle | consumers/alerts/statistical.py:74-81 | exactly the endpoints seen within the last 3600 s stay, unchanged, and the others are counted |
| PolicyStaleness.StalenessBounded | gateway/app/policy.py:63-82 | every answer of every run is the source-of-truth answer of some instant in the last 10 s plus gap |
| PolicyStaleness.GapBreaksBound | gateway/app/policy.py:72-78 | for every smaller bound some run gives an answer that was wrong for that whole time |
| PolicyStaleness.StalenessIff | gateway/app/policy.py:63-82 | a bound on the age of answers holds for every system and run exactly when it is at least 10 s plus gap |
| PolicyStaleness.TenSecondsIff | gateway/app/policy_invalidation.py:3-7 | the documented 10 s hold for every run exactly when the gap is zero |
| PolicyStaleness.RouteDecides | gateway/app/policy.py:23-43 | if the database has one answer for a route on all sets of the tenant's rows, every run gives that answer for it |
| PolicyQuery.AnswersAreSelected | gateway/app/policy.py:23-43 | every answer of every run is the tenant's own policy with the longest pattern matching the route, or none, in a table current within the last 10 s plus gap |
| PolicyQuery.PrefixPattern | gateway/app/policy.py:24-35 | a plain prefix with a star matches exactly the routes that start with it |
| PolicyQuery.LikeIff | gateway/app/policy.py:33 | a route matches exactly when it can be cut into one fitting part per piece of the pattern |
| PolicyQuery.SpecificWins | gateway/app/policy.py:24-28 | of two matching prefix patterns the longer one decides |
| PolicyCache.ScanPattern | gateway/app/policy_invalidation.py:37 | the scan pattern of a tenant finds exactly its keys |
| PolicyCache.KeyTextInjective | gateway/app/policy.py:63 | for tenants without a colon equal cache keys mean equal tenant and route |
| PolicyLocking.VersionCountsUpdates | gateway/app/routes/admin.py:52-79 | a policy's version is its initial one plus its successful updates |
| PolicyLocking.OneWinnerPerVersion | gateway/app/routes/admin.py:52-79 | two successful updates never expected the same version of a policy |
| PolicyLocking.ForeignRowsUntouched | gateway/app/routes/admin.py:55-58 | a tenant without updates of its own keeps its rows and its answers |
| PolicyLocking.OthersCannotUpdate | gateway/app/routes/admin.py:52-58 | in every run in which only other tenants ask for updates, whichever policy ids they name, a tenant's rows stay as they are |
| PolicyLocking.LockedIff | gateway/app/routes/admin.py:52-79 | in every run a row is locked exactly while one transaction is between its UPDATE and its end |
| PolicyLocking.PublishedIsCommitted | gateway/app/routes/admin.py:79-90 | every published message names a version some committed table has |
| PolicyFlush.FlushesAreAnnounced | gateway/app/policy_invalidation.py:42-50 | in every run a listener flushes only tenants for which an update was published |
| PolicyFlush.FlushStep | gateway/app/policy_invalidation.py:36-50 | a flush under way keeps covering everything stale until it has deleted it, and nothing stale ever comes back |
| PolicyFlush.FlushIsFinal | gateway/app/policy_invalidation.py:36-50 | after a flush that started with no older fill in flight, every later answer is the truth of a version not older than the update |
| PolicyFlush.FinalIff | gateway/app/policy_invalidation.py:36-50 | from a reachable state no later answer for the tenant is older than a version exactly when no older entry is alive and no older fill can land |
| PolicyFlush.OlderFillBreaksFlush | gateway/app/policy.py:72-78 | a run in which a completed flush is not final because an older fill is in flight |
| PolicyService.Service.GetPolicy | gateway/app/policy.py:63-82 | with others and time in between: the cached answer if alive when the cache is asked, else the database's answer for this route on exactly the tenant's own rows when it is read, whatever fails, and true at most 10 s plus gap ago |
| PolicyService.Service.UpdatePolicy | gateway/app/routes/admin.py:52-96 | 404, 409, a wait for a locked row, or update, exactly as the caller's own row, its version and its lock say; an update is one committed version, the commit comes before the publish, and a publish that raises leaves it committed |
| PolicyService.Service.Invalidate | gateway/app/policy_invalidation.py:36-50 | with fills landing meanwhile: only the tenant's found keys go, a surviving live key appeared after the scan began, and if no older fill was in flight nothing older than the update survives |
| PolicyInterference.ForeignRun | gateway/app/policy.py:63-82 | any run of others' steps leaves an agent's own part of the state alone and time and history only move forward |
| AlertDelivery.AtMostOnce | consumers/alerts/worker.py:97-200 | in every run each entry is scanned at most once, and an acknowledged one was scanned, unparsable, or dropped at a restart |
| AlertDelivery.NothingDroppedInFirstLife | consumers/alerts/worker.py:97-110 | a consumer started once scans every valid entry it acknowledges |
| AlertWorker.AlertConsumer.DropOwnPending | consumers/alerts/worker.py:97-110 | with appends and trims before each step, everything pending is acknowledged in pages of at most 200 and nothing is scanned |
| AlertWorker.AlertConsumer.Poll | consumers/alerts/worker.py:184-200 | with appends and trims before each step, the parsed messages of a page of at most 200 are scanned once and in order, then the page is acknowledged |
| RedisStream.CommandsTouchOneGroup | consumers/alerts/worker.py:3-7 | XREADGROUP, XACK and XAUTOCLAIM on one group change neither the entries nor any other group |
| StreamGroups.AnalyticsStep | consumers/analytics/worker.py:127-231 | each step of the shared system is, for the analytics group, that step of its protocol, and nothing for the alert consumer's steps |
| StreamGroups.AlertStep | consumers/alerts/worker.py:97-200 | each step of the shared system is, for the alert group, that step of its protocol, and nothing for the analytics consumers' steps |
| StreamGroups.GroupsIndependent | consumers/alerts/worker.py:3-7 | over every run of the shared stream each group's part is the run of its own protocol on its own steps |
| StreamGroups.OtherGroupInvisible | consumers/alerts/worker.py:3-7 | runs that agree on one group's steps agree on its position, pending list and results, whatever the other group did |
| StreamGroups.CountedAtLeastOnce | consumers/analytics/worker.py:127-182 | on the shared stream every added entry is unread, delivered or trimmed unread; a settled one was counted, unparsable or trimmed while pending, and counted at most once plus once per stop and live claim |
| StreamGroups.ScannedAtMostOnce | consumers/alerts/worker.py:69-200 | on the shared stream each entry is scanned at most once and only if it parses for the alert consumer; an acknowledged one was scanned, unparsable or dropped at a restart |
| StreamGroups.AlertParsesIff | consumers/alerts/worker.py:69-86 | an entry is not poison for the alert consumer exactly when its four fields are there and the stamp converts, and each field of the event is the one it is read from |
| EndToEnd.DrainedTableIsExact | consumers/analytics/worker.py:127-231 | once an undisturbed pipeline has drained, nothing trimmed before it was read and acknowledged, the table is the group-by of exactly the events the gateway emitted, each counted once |
| EndToEnd.DrainedTableByHand | consumers/analytics/worker.py:127-231 | then every emitted event has a row, and every row counts exactly the emitted events of its tenant, endpoint, method, minute and status range |
| EndToEnd.ReadBackExists | gateway/app/events.py:22-28 | for any events there are text forms whose conversions read back |
| Dedup.Deduplicator.SweepExpired | consumers/alerts/dedup.py:27-34 | at most every 5 s, exactly the entries older than 60 s go |
| Dedup.Deduplicator.ShouldPublish | consumers/alerts/dedup.py:37-51 | publish exactly without an entry of the last 60 s, otherwise suppress and count |
| Dedup.SweepInvisible | consumers/alerts/dedup.py:27-51 | no verdict of any run depends on the sweep |
| Dedup.PublicationsApart | consumers/alerts/dedup.py:46-48 | two publications of one source are more than 60 s apart |
| Dedup.SuppressionCovered | consumers/alerts/dedup.py:46-51 | a suppressed alert has a publication of its source at most 60 s earlier |
| Dedup.WindowCountsAddUp | consumers/alerts/dedup.py:46-51 | the final counts of all windows of a source sum to its calls |
| Dedup.EntriesYoung | consumers/alerts/dedup.py:27-34 | after every call every stored entry is younger than 65 s |
| RpsWindow.RollingRpsCounter.Record | consumers/alerts/rps_window.py:26-29 | one more arrival for this second and endpoint, nothing else changes |
| RpsWindow.RollingRpsCounter.Tick | consumers/alerts/rps_window.py:31-41 | every finished second is reported once with its full counts, oldest first, the current second is untouched |
| RpsWindow.RecordKeeps | consumers/alerts/rps_window.py:26-29 | recording keeps arrivals equal to reported plus bucketed |
| RpsWindow.DrainKeeps | consumers/alerts/rps_window.py:38-41 | draining keeps arrivals equal to reported plus bucketed and never reports a pair twice |

## Left out

- OWASP rules in consumers/alerts/rules.py: they depend on a regular-expression engine; a scan is only counted.
- process_message and score_baselines plumbing: which alerts are published follows from the deduplicator and the score condition and would add easy members.
- FastAPI, proxying, headers, authentication, WebSocket fan-out and the dashboard: I/O around the modelled decisions.
- The event emitted for a blocked request and the emitter's background tasks: no state worth proving.
- The error Postgres raises on a LIKE pattern that ends in a backslash: such a pattern matches nothing here.
- Floating-point rounding, NaN and float text formats: exact reals, with p50 and p99 as 50/100 and 99/100.
- The order of rows from a dictionary within one second of RpsWindow: reported in any order.
- Changing a key's window while it is live: window results fix the window per key.
- AnalyticsWorker.Worker.AdoptOrphaned: covers the first `rounds` pages; it stops on its own as soon as these are as many as the stream has entries, but a stream that grows faster could keep the code sweeping.
- process_message raising in the middle of a page: a crash in AlertDelivery.dfy, not a path of AlertWorker.AlertConsumer.Poll.
- PolicyService.Service.UpdatePolicy: reports a row that stays locked for `tries` rounds as still waiting, because the code waits without a timeout.
- The XREADGROUP and XACK of one page of drop_own_pending are one step in AlertDelivery.dfy and two in StreamGroups.dfy.
- Two processes sharing one consumer name, and Redis losing acknowledged data: not modelled.
- Hashing, row-level security, migrations, seeds, tracing, metrics and deployment files: foreign calls and configuration.
