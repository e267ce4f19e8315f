# Verified model of the document registry's admission control, evaluation and benchmark code

This project models the parts of the repository that carry state, concurrency or arithmetic,
and proves what they keep over whole runs. Every number is an exact real or an unbounded
integer.

* **Admission control** (`app/middleware/__init__.py`, wired in `app/main.py`). `RateLimiter`
  is the sliding-window limiter as a class with its dictionary of queues; `AuditTrail` is the
  bounded audit log; `Gateway` is the stack of middlewares in the order in which they are
  added, and `GatewayPolicy` what configuration and request alone decide. `RateLimiterRuns`,
  `RateLimiterIdentities`, `GatewayRuns` and `GatewayReplies` hold the guarantees over runs: the
  window bound under a drifting clock, agreement with a limiter that forgets
  nothing, exactness of `Retry-After`, greedy optimality, isolation of identities,
  completeness of the audit log.
* **Ranking metrics** (`app/evaluation/metrics.py`, `runner.py`, `evaluator.py`).
  `RankingMetrics` holds the metrics; `NdcgValues`, `NdcgBounds`, `NdcgRange`, `NdcgRepeats`,
  `MetricRelations` and `Promotion` their laws; `Leaderboards`, `SimulatedEvaluation` and
  `MetricAverages` the evaluation around them. `Sorting` is a stable sort with the order
  statistics the proofs use, `Reals` sums and quotients.
* **Load tester** (`app/benchmark/load_tester.py`). `LoadTester` is a transition system in
  which any enabled coroutine may move next; its theorems hold for every schedule.
* **Latency and cost statistics** (`app/benchmark/metrics_collector.py`,
  `benchmark_service.py`, `reporter.py`, `benchmarks/benchmark_answer_generation.py`):
  `LatencyStats`, `LatencyDispersion`, `Grouping`, `Costs`, with `Rounding` below them.
* **Database URLs** (`app/core/config.py`): `DatabaseUrl` re-targets the driver on the text of
  the URL; `DatabaseSettings` moves TLS parameters and derives the sync URL.

## Where the code and its documentation differ

The model follows the code.

* `app/main.py:309-311` says that tracing wraps everything and that security headers apply to
  all responses. Middlewares added later are outermost, so replies of the bearer gate, the key
  gate and the rate limiter go out without those headers, and so does the 500 for an exception,
  which the server adds outside the stack; `GatewayRuns.HeadersMissingExactly` states exactly
  when.
* `app/evaluation/metrics.py:152` documents NDCG between 0.0 and 1.0.
  `NdcgRange.NdcgRangeExactly` gives the exact condition on the graded scores, for
  duplicate-free results; `NdcgRepeats.RepeatsRangeExactly` the exact condition on the results,
  repeated ids included, when there are no graded scores.
* Precision is documented between 0.0 and 1.0, but a negative depth is accepted and divides:
  `MetricRelations.PrecisionRangeExactly` and `Promotion.CountMetricsNoLower` give the exact
  conditions.
* Stripping TLS parameters is meant to be idempotent. A pass takes one question mark off the
  end of a fragment, and the next pass another one, or the bare `#` that is left;
  `DatabaseSettings.StrippingLawsExactly` shows that these fragments are the only exception.
* The sync URL derived from the async one is meant to be the same URL with another driver. When
  the authority is empty and there is a query, as for a SQLite file by relative path, joining
  the URL drops the `//`, and neither URL can be re-targeted any more;
  `DatabaseSettings.DerivedSyncMatchesAsync` is exact, and
  `DatabaseSettings.RelativeSqlitePathFails` is one such URL.
* Re-targeting is meant to be last-writer-wins. A SQLite URL moved to a known driver cannot be
  moved on to an unknown one; `DatabaseUrl.LastDriverWinsExactly` is exact.
* A limit of zero or less makes the limiter read the front of an empty queue;
  `RateLimiterIdentities.IndexErrorExactly` says when.

## Model

| member | source | states |
|---|---|---|
| `RateLimiter.PruneKeepsTail` | app/middleware/__init__.py:172-174 | lazy pruning drops a front part, all of it strictly below the cutoff, and stops at the first reading that is not |
| `RateLimiter.SlidingWindowRateLimiter.constructor` | app/middleware/__init__.py:161-163 | a new limiter has no queues |
| `RateLimiter.SlidingWindowRateLimiter.Allow` | app/middleware/__init__.py:165-179 | one call changes the queue of the asking identity only, to the state and answer of the specification `Admit`, error path included |
| `RateLimiter.SlidingWindowRateLimiter.Reset` | app/middleware/__init__.py:181-186 | forgets one identity or all, and nothing else |
| `RateLimiterRuns.AdvanceKeepsTail` | app/middleware/__init__.py:171-179 | a call keeps the queue a tail of the log of all acceptances and within the limit |
| `RateLimiterRuns.AdvanceDropsExpired` | app/middleware/__init__.py:172-174 | what a call removes from the queue is below its cutoff, whatever the clock does |
| `RateLimiterRuns.QueueIsTailOfLog` | app/middleware/__init__.py:169-179 | in every run the queue is the tail of the acceptance log, at most `limit` long, and all the log has beyond it was expired by a reading already taken |
| `RateLimiterRuns.AcceptancesAreSpread` | app/middleware/__init__.py:169-179 | an acceptance is more than `window - drift` later than the one `limit` places before it |
| `RateLimiterRuns.WindowBound` | app/middleware/__init__.py:169-179 | with readings in lock order running backwards by at most `drift`, every closed interval of length `window - drift` holds at most `limit` acceptances of the whole run |
| `RateLimiterRuns.WindowBoundIsTight` | app/middleware/__init__.py:169-179 | for every limit of two or more the interval cannot be longer by any amount: a run with that drift puts `2 * limit - 1` acceptances into it |
| `RateLimiterRuns.LimitOneNeedsNoClock` | app/middleware/__init__.py:169-179 | with a limit of one, every closed interval of the full window length holds at most one acceptance, whatever the clock does |
| `RateLimiterRuns.PrunedQueueIsWindow` | app/middleware/__init__.py:171-174 | with a clock that never runs backwards the pruned queue is exactly the acceptances at or after `now - window` |
| `RateLimiterRuns.RefinesCounting` | app/middleware/__init__.py:165-179 | every answer equals that of a limiter that keeps and counts all past acceptances |
| `RateLimiterRuns.RejectionFreezesQueue` | app/middleware/__init__.py:173-177 | after a rejection the queue stands still until its front expires, and all calls meanwhile are rejected |
| `RateLimiterRuns.RetryAfterIsExact` | app/middleware/__init__.py:173-179 | every call up to and including `now + retry_after` is rejected and the first one later is accepted, with no assumption on the clock |
| `RateLimiterRuns.HeaderSuffices` | app/middleware/__init__.py:356-364 | waiting the Retry-After value is enough if nothing was accepted meanwhile, and it exceeds the exact wait by at most a second |
| `RateLimiterRuns.GreedyIsOptimal` | app/middleware/__init__.py:165-179 | no choice of calls that fits the limit in every closed window accepts more than the limiter on any prefix of the run |
| `RateLimiterRuns.GreedyIsFeasible` | app/middleware/__init__.py:165-179 | the limiter's own choice fits the limit in every closed window |
| `RateLimiterIdentities.AnswersAreIsolated` | app/middleware/__init__.py:161-186 | in any mix of calls and resets an identity is answered as its own calls alone would be |
| `RateLimiterIdentities.QueueIsRunSinceReset` | app/middleware/__init__.py:171-186 | the queue of an identity is that of a run of its own calls since its last reset |
| `RateLimiterIdentities.AnswersCountOwnHistory` | app/middleware/__init__.py:165-186 | answers count the identity's own acceptances since its last reset that lie in the window |
| `RateLimiterIdentities.IndexErrorExactly` | app/middleware/__init__.py:175-176 | the front of an empty queue is read exactly when the limit is not positive and no reading is left in the window |
| `AuditTrail.AuditLog.constructor` | app/middleware/__init__.py:65-70 | a new log is empty |
| `AuditTrail.AuditLog.Record` | app/middleware/__init__.py:72-74 | appends to the history; the stored entries stay its last `max_size` |
| `AuditTrail.LastN` | app/middleware/__init__.py:68-68 | a bounded queue keeps the newest entries, place by place |
| `AuditTrail.AuditLog.All` | app/middleware/__init__.py:83-85 | the last `max_size` records since the last clear, place by place, newest last |
| `AuditTrail.AuditLog.Clear` | app/middleware/__init__.py:87-89 | starts a new history |
| `Gateway.Stack.Dispatch` | app/middleware/__init__.py:430-457 | the bearer gate in front of the whole stack: new state and reply are those of `Serve` |
| `Gateway.Stack.KeyMiddleware` | app/middleware/__init__.py:284-313 | past the bearer gate, the key gate and all behind it do what `Serve` says, with 401 and 403 leaving the state alone |
| `Gateway.Stack.AuditMiddleware` | app/middleware/__init__.py:479-509 | records the reply of everything inside it, 500 for an exception |
| `Gateway.Stack.LimitMiddleware` | app/middleware/__init__.py:341-371 | identity, limit, 429 with its headers, or the handler's reply with rate-limit headers; records nothing |
| `Gateway.Stack.Handle` | app/main.py:317-321 | the handler runs once; its reply carries request id and security headers |
| `GatewayPolicy.RefusalsExactly` | app/middleware/__init__.py:284-313 | a missing, unknown or disabled key is refused with 401, a path under no allowed prefix with 403, a missing token with 401 before either, and nothing else is refused |
| `GatewayPolicy.PolicyDecides` | app/middleware/__init__.py:341-355 | a keyed request is counted for its own key at that key's quota, any other for its address at the default limit |
| `GatewayPolicy.CallersAgreeExactly` | app/middleware/__init__.py:344-352 | two requests share a caller exactly when they have the same key id, or neither has a key and they have the same host |
| `GatewayPolicy.RefusalChangesNothing` | app/middleware/__init__.py:288-311 | a refusal is a bare 401 or 403 and leaves limiter, log and handlers alone |
| `GatewayPolicy.UncountedIsServed` | app/middleware/__init__.py:342-343 | an admitted request that is not counted reaches its handler whatever the limiter's state |
| `GatewayPolicy.PublicPagesAreFree` | app/middleware/__init__.py:336-338 | health and documentation pages need no key or token and use up no quota |
| `GatewayPolicy.ExemptPrefixesAreSegments` | app/middleware/__init__.py:422-428 | exempt prefixes count as whole segments |
| `GatewayRuns.AuditIsComplete` | app/middleware/__init__.py:479-509 | over any sequence of requests the log holds exactly one entry per request past the gates, in order, with the handler's status, 429 for a rejection, or 500 for an exception of handler or limiter |
| `GatewayRuns.RefusedRequestsLeaveNoMark` | app/main.py:323-347 | limiter, audit log and handler runs are as if refused requests had never been sent |
| `GatewayRuns.HeadersMissingExactly` | app/main.py:308-347 | in every run a reply lacks the security headers exactly when a gate refuses, the limiter rejects or fails, or the handler raises |
| `GatewayReplies.ReplyCountsHistory` | app/middleware/__init__.py:341-371 | for a clock that does not run backwards, the whole reply to a counted request follows from the handler runs of its caller in the window: status, headers, quota, what is left of it, and the seconds to wait |
| `GatewayReplies.HeadersCountHistory` | app/middleware/__init__.py:341-371 | in particular the security headers are there exactly when fewer than its quota of handler runs lie in the window and the handler does not raise |
| `GatewayReplies.RetryAfterSuffices` | app/middleware/__init__.py:356-364 | in every run, whatever the clock: after a 429 a later request of the caller reaches its handler if it waited for the seconds in the reply and no other was handled in between, and one second less was too short |
| `GatewayRuns.HandlerRunsAreLog` | app/middleware/__init__.py:341-371 | per caller, the handler runs of counted requests are the acceptance log of a run of its readings |
| `GatewayRuns.HandlerRunsRespectWindow` | app/middleware/__init__.py:341-371 | per caller, handlers run at most as often as the quota of its own key, or the default, in any closed interval of length `window - drift` |
| `GatewayRuns.IdentityFixesLimit` | app/middleware/__init__.py:344-352 | a caller has one quota for all its requests when keys sharing an id share a quota |
| `Sorting.SortPermutes` | app/evaluation/metrics.py:170-173 | sorting rearranges |
| `Sorting.SortSorts` | app/evaluation/metrics.py:170-173 | sorting puts in order |
| `Sorting.SortIsStable` | app/evaluation/evaluator.py:379-380 | elements that tie keep their order |
| `Sorting.DescendingDominance` | app/evaluation/metrics.py:170-178 | thresholds reached no more often give a place-wise smaller descending list |
| `Sorting.AscendingDominance` | app/benchmark/metrics_collector.py:175-175 | the same for ascending lists of equal length |
| `Sorting.SortedIsUnique` | app/benchmark/metrics_collector.py:175-175 | elements without distinct ties have one sorted arrangement |
| `RankingMetrics.Slice` | app/evaluation/metrics.py:164-164 | a prefix of the results: the first `k`, or all but the last `-k` |
| `RankingMetrics.Largest` | app/evaluation/metrics.py:186-232 | the deepest of the configured depths |
| `RankingMetrics.FirstHit` | app/evaluation/metrics.py:96-98 | the first relevant result, with none before it |
| `RankingMetrics.ComputeMrr` | app/evaluation/metrics.py:77-100 | the search loop returns the reciprocal of the first relevant rank, or zero |
| `RankingMetrics.ComputeNdcg` | app/evaluation/metrics.py:129-183 | the two accumulating loops compute DCG over ideal DCG, and zero when the ideal is zero |
| `RankingMetrics.ComputeAllMetrics` | app/evaluation/metrics.py:186-232 | the dictionary holds every metric of every configured depth with its value and nothing else |
| `RankingMetrics.ComputeCompositeScore` | app/evaluation/metrics.py:262-307 | the loop computes the weighted sum, divided by a positive total weight, with the fall-through to averaged names |
| `NdcgValues.NdcgClosedForm` | app/evaluation/metrics.py:129-183 | for any scores, NDCG@k times the discounted gains of the best `k` relevances is the discounted gains of the first `k` results, as sums over positions |
| `NdcgValues.UngradedClosedForm` | app/evaluation/metrics.py:129-183 | without graded scores, NDCG@k times the first `min(k, number relevant)` discounts is the sum of the discounts at the positions of hits |
| `NdcgValues.SingleRelevantScore` | app/evaluation/metrics.py:162-183 | a single relevant id found once within the depth scores exactly the discount of its place |
| `NdcgBounds.RetrievedCountsFewer` | app/evaluation/metrics.py:157-173 | for duplicate-free results no positive relevance is reached more often than among the relevant ids |
| `NdcgBounds.SortGains` | app/evaluation/metrics.py:162-178 | rearrangement: sorting downwards never lowers the discounted gain |
| `NdcgBounds.IdealDominates` | app/evaluation/metrics.py:162-178 | sorted, the retrieved relevances lie below the ideal ones place by place |
| `NdcgBounds.DcgBelowIdeal` | app/evaluation/metrics.py:162-178 | DCG@k is at most IDCG@k for duplicate-free results and graded scores |
| `NdcgBounds.NdcgWithinUnit` | app/evaluation/metrics.py:129-183 | then NDCG@k lies between zero and one, at every depth |
| `NdcgBounds.DuplicatesBreakRange` | app/evaluation/metrics.py:129-183 | one relevant id listed twice scores above one, for every scale |
| `NdcgRepeats.FewHitsStayBelow` | app/evaluation/metrics.py:162-183 | with no more hits in the first `k`, repetitions counted, than relevant ids, NDCG@k is at most one |
| `NdcgRepeats.ManyHitsExceed` | app/evaluation/metrics.py:162-183 | with more hits than relevant ids some discount puts NDCG@k above one |
| `NdcgRepeats.RepeatsRangeExactly` | app/evaluation/metrics.py:129-183 | for every result list and depth: NDCG@k is at most one under every scale if and only if the first `k` hold no more hits than there are relevant ids, or the depth is negative |
| `NdcgBounds.NdcgIgnoresSetOrder` | app/evaluation/metrics.py:169-173 | the order in which the relevant set is iterated does not matter |
| `NdcgBounds.BinaryGain` | app/evaluation/metrics.py:162-167 | a binary list gains at most what as many leading hits gain, with equality exactly when its hits lead |
| `NdcgBounds.NdcgIsOneExactly` | app/evaluation/metrics.py:129-183 | without graded scores NDCG@k is one exactly when the first `min(k, number relevant)` results exist and are all relevant |
| `NdcgRange.NegativeScoreBreaks` | app/evaluation/metrics.py:157-183 | a negative score alone at the top makes NDCG negative |
| `NdcgRange.StrayScoreBreaks` | app/evaluation/metrics.py:157-183 | a positive score outside the relevant set, after the ideal ordering, makes NDCG exceed one |
| `NdcgRange.FlatIsBinary` | app/evaluation/metrics.py:157-183 | one negative relevance shared by all relevant ids cancels out of NDCG |
| `NdcgRange.UnevenBreaks` | app/evaluation/metrics.py:157-183 | different relevances, none positive, let a single result exceed one |
| `NdcgRange.NdcgRangeExactly` | app/evaluation/metrics.py:129-183 | for all relevant ids and scores: every duplicate-free result list stays between zero and one at every depth if and only if the scores are graded or flat |
| `MetricRelations.RecallTimesRelevantIsPrecisionTimesK` | app/evaluation/metrics.py:24-74 | recall times the number relevant is precision times `k`, both the number found |
| `MetricRelations.RecallGrowsWithDepth` | app/evaluation/metrics.py:24-48 | a larger depth never lowers recall |
| `MetricRelations.MetricsAgreeOnHit` | app/evaluation/metrics.py:24-183 | hit rate is one, recall, precision and NDCG are positive and MRR is at least `1/k`, each exactly when the first `k` results hold a relevant one |
| `MetricRelations.HitRateIsHit` | app/evaluation/metrics.py:103-126 | hit rate is one or zero at every depth, by whether a hit comes before it |
| `MetricRelations.MrrTimesRankIsOne` | app/evaluation/metrics.py:96-98 | MRR times the first relevant rank is one |
| `MetricRelations.NoHitNoMrr` | app/evaluation/metrics.py:77-100 | without a relevant result MRR is zero |
| `MetricRelations.ReportedHitsLookDeepest` | app/evaluation/metrics.py:186-232 | the reported hit rate is one exactly when some configured depth, or ten without one, holds a hit |
| `MetricRelations.ReportIsConsistent` | app/evaluation/metrics.py:186-232 | the entries of a report fit together under their names |
| `MetricRelations.RecallAndMrrInUnit` | app/evaluation/metrics.py:24-126 | recall, MRR and hit rate lie between zero and one on all inputs |
| `MetricRelations.PrecisionRangeExactly` | app/evaluation/metrics.py:51-74 | precision lies between zero and one exactly when the depth is not negative or nothing is found |
| `MetricRelations.ReportInUnit` | app/evaluation/metrics.py:186-232 | all metrics of a report at non-negative depths on duplicate-free results are in range |
| `MetricRelations.CompositeInUnit` | app/evaluation/metrics.py:262-307 | the composite score of in-range metrics is in range for all non-negative weights |
| `MetricRelations.CompositeMonotone` | app/evaluation/metrics.py:294-307 | larger metrics never lower the composite score |
| `MetricRelations.CompositeOfConstant` | app/evaluation/metrics.py:294-307 | metrics of one value score that value for all weights of positive total |
| `MetricRelations.CompositeReadsAverages` | app/evaluation/metrics.py:298-304 | averages under averaged names score as the same numbers under plain names |
| `Promotion.PromotionIsNoLater` | app/evaluation/metrics.py:186-232 | moving a relevant id forward past irrelevant ones finds at least as many relevant ids at every depth |
| `Promotion.CountMetricsNoLower` | app/evaluation/metrics.py:24-126 | finding no fewer ids at a depth never lowers recall or hit rate there; nor precision, except exactly at a negative depth at which more is found |
| `Promotion.SetMetricsNoLower` | app/evaluation/metrics.py:24-126 | the same for duplicate-free lists of which one finds relevant ids no later |
| `Promotion.PromotionFindsNoFewer` | app/evaluation/metrics.py:38-47 | with duplicates or without, moving a relevant id forward past irrelevant ones loses no found id at any depth |
| `Promotion.MrrNoLower` | app/evaluation/metrics.py:77-100 | finding relevant ids no later never lowers MRR |
| `Promotion.LeadGains` | app/evaluation/metrics.py:162-167 | summation by parts: a lead in hits at every depth is a lead in discounted gain |
| `Promotion.NdcgNoLower` | app/evaluation/metrics.py:129-183 | nor NDCG without graded scores, at any depth |
| `Promotion.GradedPromotionNoLower` | app/evaluation/metrics.py:129-183 | with any scores and a positive ideal gain, moving a result forward past results of no greater relevance never lowers NDCG, at any depth |
| `Promotion.PromotionNeverLowersScore` | app/evaluation/metrics.py:186-307 | for all result lists, promotion never lowers a reported metric, nor the composite score of the query |
| `Rounding.RoundIsNear` | app/evaluation/runner.py:340-348 | rounding moves a value by at most half a unit of the last place |
| `Rounding.RoundMonotone` | app/evaluation/runner.py:340-348 | rounding keeps the order |
| `Rounding.TiesGoToEven` | app/evaluation/runner.py:340-348 | a tie goes to the even neighbour |
| `Rounding.RoundIsWhole` | app/evaluation/runner.py:340-348 | a rounded value is a whole number of units of the last place, and rounding it again changes nothing |
| `Leaderboards.GenerateLeaderboard` | app/evaluation/evaluator.py:340-386 | collecting, sorting and ranking in place yield the stable order with ranks 1 to n, exact or rounded |
| `Leaderboards.BoardIsStableRanking` | app/evaluation/runner.py:324-355 | either board is a stable descending rearrangement of the strategies' entries |
| `Leaderboards.InversionsAreTies` | app/evaluation/runner.py:337-352 | the rounded board puts a worse strategy first only when exact scores differ by at most 0.0001, and then only as a tie |
| `Leaderboards.FiguresAreNear` | app/evaluation/runner.py:337-350 | every figure on the rounded board is within half a unit of the strategy's own figure of that name |
| `Leaderboards.RoundedBoardIsExactBoard` | app/evaluation/runner.py:321-355 | on scores more than 0.0001 apart the rounded board is the exact board, rounded |
| `SimulatedEvaluation.NumToPick` | app/evaluation/runner.py:152-154 | the largest whole number of at most the bias times the relevant ids, but at least one and at most all of them |
| `SimulatedEvaluation.ScoreAll` | app/evaluation/runner.py:163-175 | the loop scores each drawn id with its rank penalty, floor and rounding |
| `SimulatedEvaluation.ScoreIsNear` | app/evaluation/runner.py:165-171 | a score is the draw less a fiftieth for every id before it, or the floor, to four places |
| `SimulatedEvaluation.Retrieve` | app/evaluation/runner.py:132-178 | for every draw: distinct ids in descending score order, exactly `min(max(1, floor(bias * n)), n)` of them relevant; fails exactly when more must be picked than `top_k` |
| `SimulatedEvaluation.QueryScoresInUnit` | app/evaluation/runner.py:223-245 | the eight kept figures of a query are in range whatever depths are configured |
| `SimulatedEvaluation.AggregateInUnit` | app/evaluation/evaluator.py:245-280 | averages of in-range figures and their composite score are in range |
| `SimulatedEvaluation.AggregateOfEqual` | app/evaluation/runner.py:255-281 | queries that all score the same average to that score, figure by figure |
| `SimulatedEvaluation.AggregateOfBoth` | app/evaluation/evaluator.py:245-280 | the figures of two data sets together are theirs, weighted by their numbers of queries |
| `SimulatedEvaluation.EvaluateQuery` | app/evaluation/runner.py:207-245 | a query gets the metrics of the results drawn for it, all in range, exactly when they can be drawn |
| `SimulatedEvaluation.EvaluateStrategy` | app/evaluation/runner.py:196-281 | one score record per query, in order, with their averages; figures, averages and composite score between zero and one |
| `MetricAverages.AggregateMetrics` | app/evaluation/metrics.py:234-259 | one averaged key for every key of the first query, the mean over the queries that report it |
| `MetricAverages.MeanTimesCount` | app/evaluation/metrics.py:252-257 | an average times the number of reports is their sum |
| `MetricAverages.AggregateStaysInUnit` | app/evaluation/metrics.py:234-307 | averages of in-range reports and their composite score, found under averaged names, are in range |
| `MetricAverages.CompositeClosedForm` | app/evaluation/metrics.py:284-307 | with the default weights the composite score is the plain weighted sum |
| `MetricAverages.CompositeOfAveragesIsAverage` | app/evaluation/evaluator.py:245-363 | the composite score of averages is the average of the queries' composite scores |
| `LoadTester.StartEstablishes` | app/benchmark/load_tester.py:88-110 | the starting state satisfies the invariant |
| `LoadTester.StepPreserves` | app/benchmark/load_tester.py:112-149 | every step of every coroutine keeps permits, lock, records and snapshots consistent |
| `LoadTester.SomethingIsEnabled` | app/benchmark/load_tester.py:112-151 | until all coroutines are done one of them can move |
| `LoadTester.RunKeepsInvariant` | app/benchmark/load_tester.py:112-151 | along every schedule the invariant holds and each move uses up one of `5 * iterations` steps |
| `LoadTester.RunsAreSafe` | app/benchmark/load_tester.py:106-149 | at most `concurrency` permits are held, no index is recorded twice, at most one coroutine is in the lock |
| `LoadTester.RunsEndExactly` | app/benchmark/load_tester.py:112-151 | a run is stuck exactly when all iterations are done, exactly after `5 * iterations` steps |
| `LoadTester.FailuresAreConserved` | app/benchmark/load_tester.py:118-147 | failed target calls are recorded as errors or still on their way, never lost or invented |
| `LoadTester.OutcomesAreKept` | app/benchmark/load_tester.py:118-147 | every sample carries the outcome of its own iteration's target call, in every interleaving |
| `LoadTester.OpeningCountsEarlyStarts` | app/benchmark/load_tester.py:113-115 | along every schedule there is one opening snapshot for each coroutine that took a permit while nothing was recorded |
| `LoadTester.FinishedRunIsComplete` | app/benchmark/load_tester.py:151-166 | each index recorded once with its own outcome, errors are the failed calls, success plus errors is iterations, the error rate times iterations is the errors, snapshots are the early starts plus one, between two and `min(concurrency, iterations) + 1` |
| `LatencyStats.Rank` | app/benchmark/metrics_collector.py:152-154 | the fractional position stays inside the list |
| `LatencyStats.PercentilesAgree` | benchmarks/benchmark_answer_generation.py:170-181 | the two percentile implementations agree on every input |
| `LatencyStats.PercentileMonotone` | app/benchmark/metrics_collector.py:146-156 | percentiles grow with the percentage and stay between the extremes |
| `LatencyStats.PercentileHitsElements` | app/benchmark/metrics_collector.py:152-156 | at a whole rank the percentile is the element there |
| `LatencyStats.PercentileValue` | app/benchmark/metrics_collector.py:152-156 | every percentile as a number: from the lower neighbour, the step to the upper one in proportion to how far the rank has gone |
| `LatencyStats.PercentileSlope` | app/benchmark/metrics_collector.py:152-156 | between neighbours percentiles grow in proportion to the percentage |
| `LatencyStats.FieldsOfStats` | app/benchmark/metrics_collector.py:175-187 | which statistic of the sorted list each field holds |
| `LatencyStats.MeanTimesCountIsSum` | app/benchmark/metrics_collector.py:180-180 | the mean times the count is the sum of the values as they came |
| `LatencyStats.ExtremePercentiles` | app/benchmark/metrics_collector.py:146-156 | 0 and 100 give minimum and maximum |
| `LatencyStats.P50IsMedian` | app/benchmark/metrics_collector.py:181-182 | the 50th percentile is the median for odd and even lengths |
| `LatencyStats.PercentilesAreOrdered` | app/benchmark/metrics_collector.py:176-187 | min, median = p50, p90, p95, p99, max come in this order |
| `LatencyStats.ExtremesAreAttained` | app/benchmark/metrics_collector.py:176-180 | minimum and maximum are attained bounds of the input, the mean lies between them, all values are counted |
| `LatencyStats.StatsIgnoreOrder` | app/benchmark/metrics_collector.py:159-187 | every statistic is unchanged by permuting the input, missing values included |
| `LatencyStats.StatsAreMonotone` | app/benchmark/metrics_collector.py:159-187 | pointwise slower lists have larger min, max, mean, median and percentiles |
| `LatencyDispersion.MedianIsCentre` | app/benchmark/metrics_collector.py:181-181 | the median separates each pair of elements equally far from the ends |
| `LatencyDispersion.CentreMinimises` | app/benchmark/metrics_collector.py:181-181 | such a centre minimises the total absolute deviation |
| `LatencyDispersion.CauchySchwarz` | app/benchmark/metrics_collector.py:186-186 | the squared mean absolute deviation is at most the mean squared deviation |
| `LatencyDispersion.DeviationFromMoments` | app/benchmark/metrics_collector.py:186-186 | the squared deviation from the sum and the sum of squares of the values as they came |
| `LatencyDispersion.MeanMedianWithinDeviation` | app/benchmark/metrics_collector.py:175-187 | mean and median are at most one standard deviation apart |
| `LatencyDispersion.DeviationWithinHalfRange` | app/benchmark/metrics_collector.py:175-187 | the standard deviation is at most half the range |
| `Grouping.GroupBy` | app/benchmark/reporter.py:79-81 | the loop files each record, in order, under its key, creates no other bucket, and has the keys in the order in which they are first met |
| `Grouping.GroupingIsPartition` | app/benchmark/reporter.py:79-81 | the buckets together are the records, each once |
| `Grouping.GroupingConserves` | app/benchmark/benchmark_service.py:224-227 | any total over the records is the sum of the buckets' totals |
| `Grouping.BucketSizesAddUp` | app/benchmark/reporter.py:93-95 | the bucket counts add up to the number of records |
| `Costs.CostIsAdditive` | app/benchmark/metrics_collector.py:199-207 | costing summed tokens is summing costs |
| `Costs.UnitCosts` | app/benchmark/metrics_collector.py:203-207 | a thousand input tokens, a thousand output tokens and one retrieval cost their own rates |
| `Costs.CostByParts` | app/benchmark/metrics_collector.py:203-207 | the cost in proportion to each count |
| `Costs.SharesMatchTotal` | app/benchmark/metrics_collector.py:208-216 | cost per operation and per success, times their numbers, give the total within one half unit each and one more |
| `Costs.RoundingDrift` | app/benchmark/metrics_collector.py:208-216 | rounding n figures and adding differs from rounding their sum by at most n + 1 half units of the eighth place |
| `Costs.ChargesMatchSummary` | app/benchmark/metrics_collector.py:190-317 | the charges of n operations match the summary total within (n + 1) half units |
| `Costs.CostByKind` | app/benchmark/reporter.py:76-98 | one row per kind, in order of first appearance, with its own count, successes and summary |
| `Costs.KindsMatchSummary` | app/benchmark/reporter.py:76-98 | the kinds' costs match the total within (kinds + 1) half units, and the counts exactly |
| `Costs.KindCountsAddUp` | app/benchmark/reporter.py:83-97 | the kinds' token counts, retrievals and successes add up to those of the whole |
| `DatabaseUrl.RunEnd` | app/core/config.py:9-10 | the driver name reaches to the first delimiter |
| `DatabaseUrl.MatchShape` | app/core/config.py:9-10 | a match consumes a scheme free of delimiters and its separator |
| `DatabaseUrl.NormaliseIsRetarget` | app/core/config.py:16-37 | rewriting the text rewrites the scheme and preserves everything after it |
| `DatabaseUrl.NormaliseForms` | app/core/config.py:9-37 | what is written for Postgres under either name and for SQLite, with any driver or none before |
| `DatabaseUrl.OtherSchemesStay` | app/core/config.py:28-37 | schemes with other initials are left alone |
| `DatabaseUrl.NormaliseNeedsSlashes` | app/core/config.py:9-37 | without `://` right after the scheme nothing is rewritten |
| `DatabaseUrl.RetargetTwice` | app/core/config.py:16-37 | what two rewrites of a scheme amount to |
| `DatabaseUrl.SqliteRewriteIsIdle` | app/core/config.py:34-36 | rewriting a SQLite URL changes nothing exactly when its text starts with the scheme to be written |
| `DatabaseUrl.LastDriverWinsExactly` | app/core/config.py:16-37 | on every URL text the last driver wins, except exactly for a SQLite URL changed to a known driver that it did not already spell, and then to an unknown one |
| `DatabaseSettings.ExtractSsl` | app/core/config.py:47-89 | the loop computes the cleaned URL, as it is after splitting and joining, and whether TLS is required |
| `DatabaseSettings.RolesByName` | app/core/config.py:40-82 | which parameters are removed or rewritten, by name and value in any case |
| `DatabaseSettings.CleanKeepsRest` | app/core/config.py:61-86 | cleaning leaves the path, the other parameters in order, the scheme up to case and any authority that is not empty |
| `DatabaseSettings.StrippingLawsExactly` | app/core/config.py:47-89 | stripping is idempotent, and stripping the sync form is stripping the original, except exactly for fragments ending in two question marks and for a lone question mark behind parameters that are kept |
| `DatabaseSettings.LoneQuestionMarkFails` | app/core/config.py:83-89 | one URL that stripping twice changes twice |
| `DatabaseSettings.OthersOfRewritten` | app/core/config.py:62-82 | rewriting the asyncpg flag for libpq leaves the other parameters and their order |
| `DatabaseSettings.RewritingKeepsRequirement` | app/core/config.py:64-82 | the sync form requires TLS exactly when the original does |
| `DatabaseSettings.Settings.constructor` | app/core/config.py:113-153 | a sync URL that is blank or the default is derived when the async one is not the default: stripped and moved back it is the async URL, with the exact exceptions, and it keeps the rest of it; one that was given keeps its own rest; the async URL keeps its other parameters only; TLS is demanded exactly when asked for by flag or URL |
| `DatabaseSettings.Settings.DeriveSyncUrl` | app/core/config.py:127-153 | when the sync URL is derived, and both URLs and the TLS flag afterwards, from their old values |
| `DatabaseSettings.RetargetUrlIsNormalise` | app/core/config.py:16-37 | re-targeting a split URL is rewriting its text |
| `DatabaseSettings.SchemeRoundTrip` | app/core/config.py:16-37 | going to the sync driver and back lands on the async scheme, and the two schemes differ exactly for the databases that are known |
| `DatabaseSettings.DerivedSyncMatchesAsync` | app/core/config.py:127-153 | a derived sync URL, stripped and moved back to asyncpg, is the async URL, except exactly for those fragments and for known databases with a query, an empty authority and no further slashes |
| `DatabaseSettings.RelativeSqlitePathFails` | app/core/config.py:137-150 | a SQLite file by relative path with a parameter is such a URL |
| `DatabaseSettings.DerivedSyncDemandsSame` | app/core/config.py:143-152 | both URLs demand TLS under the same condition |

## Left out

- Floating point: all numbers are exact reals; `log2` and `pow` become an abstract scale (discount positive, strictly decreasing, 1 at rank 1; gain strictly increasing, 0 at 0, 1 at 1); `sqrt` is avoided by stating the deviation as a square.
- Rounding.RoundIsNear: rounds exact reals, ties to even, where the language rounds the binary double.
- The wall clock, random generator, scheduler and network appear only as arguments: clock readings, draws constrained to what the generator promises, and arbitrary schedules.
- LatencyStats.PercentilesAgree: percentages from 0 to 100 only; every caller passes 50, 90, 95 or 99.
- LatencyStats.StatsAreMonotone: says nothing about the deviation, which is not monotone.
- MetricRelations.RecallGrowsWithDepth: non-negative depths; a negative one counts from the end of the results.
- MetricRelations.ReportInUnit: non-negative depths, because of precision; `PrecisionRangeExactly` covers the rest.
- Promotion.PromotionNeverLowersScore: excludes weights on precision at a negative depth, which promotion does lower; reports use no graded scores, as the code computes them.
- RankingMetrics: dictionary keys are a datatype instead of strings, a Python set is a duplicate-free list of its elements; warnings logged for empty sets are omitted.
- SimulatedEvaluation.Retrieve: the fixed chunk list is a parameter; content, metadata and the set of relevant ids being built from a list are omitted, as are storage and reporting of results.
- Leaderboards.GenerateLeaderboard: one method for both boards with a switch for rounding; entries carry precision at ten although the boards do not print it.
- NdcgRepeats.RepeatsRangeExactly: stated without graded scores, which `compute_all_metrics` never passes.
- Gateway: cross-origin preflight, header and key comparison details, token verification (a boolean of the request), and switches for tracing and security headers (always on); the audit log has no exempt paths, as in the wiring.
- Gateway.Stack.Dispatch: requests are served one at a time; between the limiter's decision and the handler's end no other request interleaves.
- AuditTrail.AuditLog.Record: entries lack timestamp, duration, request id and user agent, the error is a flag, and the JSONL file is omitted.
- The API key store's registration and removal: keys are a fixed map during a run.
- LoadTester: the inspection of the target is a boolean; warm-up, timing, throughput, token extraction and errors outside the guarded target call; acquiring the semaphore, ending the target call, acquiring the lock, appending and leaving are separate steps, more of them than asyncio distinguishes.
- LoadTester.SomethingIsEnabled: a target call always ends, which its timeout ensures.
- DatabaseSettings: decoding and encoding a query are taken to be inverse. URLs without a colon, URLs that cannot be split, and leading or embedded control characters that splitting removes are not modelled. Joining follows current releases of Python 3.11, the version of `Dockerfile:30`, in which a path that starts with two slashes keeps an empty authority before it.
- DatabaseUrl.MatchShape: case is ignored for the characters that matter to the words matched, the long s and dotless and dotted i included.
- Reports other than cost by kind, rendering, file storage, command lines and the result-collecting loop of the benchmark service: input and output with little logic.
- Schemas, database models, repositories, health probes, retry client, secrets, agents and front end.
