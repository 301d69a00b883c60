# Walking routes, risk scores and sessions: a verified model

This project models the parts of a safe-walking-routes backend whose correctness is hard to see by
reading one function, and proves what they promise. `dafny verify dfyconfig.toml` checks all of it.

Lengths, distances, risks and scores are `real`; the explicit roundings of the response figures are
modelled exactly. SQL statements are functions or atomic steps over sequences, sets and maps.
Code that updates state in place is a class or a method with a loop; expressions are functions.

| module | what it models |
|---|---|
| `RoadGraph` | edge rows, adjacency and incident lists, walks (edges crossed in either direction) |
| `BoundedSearch` | the multi-seed Dijkstra search with lazy deletion, exact within its bound |
| `Neighborhoods`, `NeighborhoodLaws` | the rows of `edge_network_neighborhoods`, their buffering, symmetry and growth |
| `RiskContexts`, `RiskScoring` | buckets and contexts; the two-stage collapse of crimes into scores |
| `PercentileClamp`, `RiskPipeline` | the p95 clamp, and neighbourhoods, scores and clamp composed |
| `RouteTradeoff` | what a larger safety multiplier buys and costs |
| `Rounding`, `RouteAggregation`, `TimeOfDayRisk`, `LeastSafeCandidate` | the figures of a route |
| `RouteCacheKey`, `RouteCache`, `SafeRoutesService` | the printed cache key, the cache under faults, the whole request |
| `GraphCleanup` | the five marking rules and the connected graph they leave |
| `SessionStore`, `SessionRuns` | the refresh-session table, and all interleavings of login, refresh and logout |
| `KeysetPaging`, `BatchedLoad`, `BacktestRanking` | ordered walks, the bulk loader, the backtest |

## Reading the main results

* **Search.** Walks are the reference. The search settles exactly the nodes some walk reaches within the
  bound, at the least cost; each search terminates because every turn settles a node or shrinks the heap.
* **Neighbourhoods.** A stored pair is exactly a pair of edges within the bandwidth, at the least
  midpoint-to-midpoint distance; pairs come with their mirror image, and a wider bandwidth only adds.
* **Scoring.** Group-by in any order, then expansion, gives on every summed column what scoring each crime on
  its own gives, under any weights. The maximum agrees on all inputs exactly when no combined weight is negative.
* **Routing.** The trade-off between length and exposure is guaranteed for multipliers m1 < m2 exactly when
  m2 is positive. The blended score may still rise, as a concrete graph shows; for a positive m2 it
  cannot rise on any graph exactly when the edges carry at most two different risks.
* **Sessions.** Every state of every interleaving is covered. Two interleaved refreshes of one token can
  leave two live sessions; how many are live is a conservation law over logouts and missed rotations.
* **Cache.** Through faults, expiry, corruption, concurrent misses and model switches a hit carries the
  routes of the request's own key fields, and the cache goes unnoticed exactly when requests that share a key
  are answered alike. The echoed coordinates and moment are those of the request that filled the entry, so
  the whole body equals a fresh one exactly when those agree.

## Where code and comments disagree

* The stage-2 comment says that the all-day context forces both weights to 1.0; the query uses the
  configured `ww_all` for the weekday weight (compute_scores.py:75-113). The model follows the query.
* The repository comment on rotation promises an atomic revoke-and-link; the affected-row count is not
  checked, so a rotation may create a session without revoking anything. The model follows the code.

## Model

| member | source | states |
|---|---|---|
| RoadGraph.Graph.constructor | etl/risk_network_kde/graph_loader.py:24-33 | after the loop the three dictionaries are the index, the two-way adjacency lists and the incident lists of the rows |
| RoadGraph.Graph.AddEdge | etl/risk_network_kde/graph_loader.py:28-33 | one row extends all three dictionaries and keeps them describing the rows read so far |
| RoadGraph.AdjacencyMeaning | etl/risk_network_kde/graph_loader.py:30-31 | an adjacency entry exists exactly for each crossing of an edge, in both directions |
| RoadGraph.IncidentMeaning | etl/risk_network_kde/graph_loader.py:32-33 | the incident list of a node names exactly the edges with that endpoint |
| RoadGraph.ReverseWalk | etl/risk_network_kde/graph_loader.py:17-23 | the graph is undirected: a walk read backwards is a walk of the same length |
| BoundedSearch.Heap.Pop | etl/risk_network_kde/build_neighborhoods.py:37 | removes one least (distance, node) entry and nothing else |
| BoundedSearch.SeededHeap | etl/risk_network_kde/build_neighborhoods.py:34-35 | the heap starts with each seed exactly once |
| BoundedSearch.ExpandNode | etl/risk_network_kde/build_neighborhoods.py:41-44 | the inner loop queues exactly the unsettled neighbours within the bound, after which every neighbour within the bound is settled or queued at least as cheaply |
| BoundedSearch.RunSearch | etl/risk_network_kde/build_neighborhoods.py:36-45 | the loop terminates with an empty heap and its invariant, and settles nodes once each by non-decreasing distance |
| BoundedSearch.SearchComplete | etl/risk_network_kde/build_neighborhoods.py:32-45 | every walk within the bound ends at a node settled at least as cheaply |
| BoundedSearch.BoundedDijkstra | etl/risk_network_kde/build_neighborhoods.py:31-45 | a node some walk reaches within the bound is settled at its minimal cost; a settled distance beyond the bound is a seed's own |
| Neighborhoods.TargetDecision | etl/risk_network_kde/build_neighborhoods.py:102-105 | the test on the smaller settled end plus half the target decides exactly whether, and at what distance, the target is a neighbour |
| Neighborhoods.NeighborhoodJob.EmitTarget | etl/risk_network_kde/build_neighborhoods.py:102-111 | a candidate is buffered and counted exactly when it is a neighbour |
| Neighborhoods.NeighborhoodJob.EmitIncident | etl/risk_network_kde/build_neighborhoods.py:96-111 | each incident edge not yet visited is decided once |
| Neighborhoods.NeighborhoodJob.EmitReached | etl/risk_network_kde/build_neighborhoods.py:93-111 | every edge touching a reached node is decided |
| Neighborhoods.NeighborhoodJob.EmitSource | etl/risk_network_kde/build_neighborhoods.py:85-115 | the buffered block of a source edge holds all its neighbours and itself at 0, each target once |
| Neighborhoods.NeighborhoodJob.Flush | etl/risk_network_kde/build_neighborhoods.py:70-80 | copies the whole buffer, counts it and empties it |
| Neighborhoods.NeighborhoodJob.Run | etl/risk_network_kde/build_neighborhoods.py:55-129 | for any buffer size the table ends with the other versions' rows followed by exactly the generated ones, and total_rows is the sum of target_counts |
| Neighborhoods.SortedIds | etl/risk_network_kde/build_neighborhoods.py:82 | edge ids in ascending order, all of them |
| NeighborhoodLaws.StoredExactly | etl/risk_network_kde/build_neighborhoods.py:1-8 | a row is generated for a pair of edges exactly when they are neighbours at that distance |
| NeighborhoodLaws.StoredSymmetric | etl/risk_network_kde/build_neighborhoods.py:83-115 | a row and its mirror image are generated together |
| NeighborhoodLaws.StoredMonotone | etl/risk_network_kde/build_neighborhoods.py:83-115 | a narrower bandwidth generates exactly the wide run's rows within it, at the same distances |
| NeighborhoodLaws.TableHolds | etl/risk_network_kde/build_neighborhoods.py:62-80 | after a run the rows of its version and bandwidth are exactly the generated ones, all others those of before |
| NeighborhoodLaws.StoredOnce | migrations/000009_restructure_risk_model_tables.up.sql:73-87 | the table a run leaves, kept rows and generated ones together, never repeats a primary key |
| RiskContexts.BucketsFollowTheClock | etl/risk_network_kde/utils.py:30-37 | each bucket is one run of the clock, from its start hour up to the start of the next bucket |
| RiskContexts.AdjacentAroundTheClock | etl/risk_network_kde/utils.py:21-27 | the listed adjacent pairs are exactly the buckets in which some hour and the next one fall |
| RiskContexts.ContextsAreNine | etl/risk_network_kde/utils.py:16-19 | the scored contexts are the timed buckets with each kind of day, and the whole day with all days |
| RiskContexts.WeekdayTwins | internal/saferoutes/service.go:218-238 | the weekend rules of pipeline, scoring query and service agree on every day, each in its own day numbering |
| RiskScoring.CollapseLosesNothing | etl/risk_network_kde/compute_scores.py:38-117 | expanding the groups equals weighting every joined pair, for every edge and context: on all sum and count columns under any weights, on the maximum too when no weight is negative |
| RiskScoring.CollapseAgreesExactly | etl/risk_network_kde/compute_scores.py:84-85 | whole rows, maximum included, agree on all inputs exactly when no combined weight is negative |
| RiskScoring.NegativeWeightDiffers | etl/risk_network_kde/compute_scores.py:85 | under a negative weight two crimes of one group already give a different maximum |
| RiskScoring.GroupingExists | etl/risk_network_kde/compute_scores.py:71 | every joined set of pairs has a grouping |
| RiskScoring.SnapShare | etl/risk_network_kde/compute_scores.py:52-57 | of the joined rows of one snapped crime at most one is for a given edge |
| RiskScoring.ScoresEveryCrimeOnce | etl/risk_network_kde/compute_scores.py:38-117 | a ctx_scores row exists exactly when a crime reaches the edge; its raw score sums, over the reaching crimes, the contribution times the factors of the crime's own hour and day, and every count column sums the quantities of the crimes it is for; the maximum is the largest single score when no weight is negative |
| RiskScoring.WeightWrittenOut | etl/risk_network_kde/compute_scores.py:104-115 | the query's weights: full for the crime's own bucket, adjacent for one it meets around the clock, other otherwise, 1.0 all day; and by kind of day |
| RiskScoring.PairWrittenOut | etl/risk_network_kde/compute_scores.py:49-66 | one joined row carries the product of its crime's own factors and counts in each column for what the crime is |
| RiskScoring.IncidentsSpreadOverDay | etl/risk_network_kde/compute_scores.py:91-101 | over the four buckets of a day each incident counts once as same, twice as adjacent and once as other; all-day counts it as same |
| RiskScoring.CountsIgnoreContext | etl/risk_network_kde/compute_scores.py:86-93 | the count columns are the same in all contexts |
| PercentileClamp.FewBeyondPercentile | etl/risk_network_kde/compute_scores.py:132-137 | at most ceil((n-1)/20) edges score strictly above the interpolated percentile and at most ceil(19(n-1)/20) strictly below |
| PercentileClamp.PercentileInterpolates | etl/risk_network_kde/compute_scores.py:134 | the percentile is the ordered values read at position 0.95(n-1), between two rows in proportion |
| PercentileClamp.EvenlySpacedPercentile | etl/risk_network_kde/compute_scores.py:134 | evenly spaced scores have their percentile at 0.95 of the way |
| PercentileClamp.PercentileIgnoresOrder | etl/risk_network_kde/compute_scores.py:134 | the percentile does not depend on row order |
| PercentileClamp.ClampLaws | etl/risk_network_kde/compute_scores.py:145 | the clamp is monotone, stays in [0, 1], reaches 1 exactly at the percentile, and is 0 without a positive percentile |
| PercentileClamp.ContextSurface | etl/risk_network_kde/compute_scores.py:121-149 | every routable edge gets its raw score and a risk in [0, 1] that is the raw score over the percentile up to 1 and preserves the raw order |
| PercentileClamp.RowsCover | etl/risk_network_kde/compute_scores.py:122-131 | a row exists for exactly the (edge, context) combinations |
| PercentileClamp.RowsOnce | etl/risk_network_kde/compute_scores.py:122-131 | no combination is inserted twice |
| PercentileClamp.NineContexts | etl/risk_network_kde/compute_scores.py:122-149 | the whole insert scores each edge exactly once in each of the nine contexts |
| PercentileClamp.RowsInserted | etl/risk_network_kde/compute_scores.py:137-149 | every inserted row carries its own edge's raw score in its own context, clamped at the percentile of that context |
| PercentileClamp.ScoreTable.Recompute | etl/risk_network_kde/compute_scores.py:222-228 | the model's rows are then exactly the new ones, every other model's the same in the same order |
| PercentileClamp.ModelsPartition | etl/risk_network_kde/compute_scores.py:222-228 | a model's rows and the others make up the table, with nothing lost or shared |
| PercentileClamp.RecomputeIdempotent | etl/risk_network_kde/compute_scores.py:11 | recomputing a model twice equals recomputing it once |
| RiskPipeline.JobRowsAreUnique | etl/risk_network_kde/compute_scores.py:54-57 | the table after a neighbourhood job meets the uniqueness the scoring join relies on |
| RiskPipeline.CrimesReachByNetworkDistance | etl/risk_network_kde/compute_scores.py:54-66 | whatever else the table holds, a crime reaches an edge exactly through a network neighbour, and decays over that network distance |
| RiskPipeline.StoredRisksOrderEdges | etl/risk_network_kde/compute_scores.py:38-149 | stored risks order the edges as the sums of their crimes' contributions do, and lie in [0, 1] when no factor, weight or quantity is negative |
| RouteTradeoff.LargerMultiplierTradesLengthForRisk | internal/saferoutes/repository.go:178-186 | of two cheapest walks the one with the larger effective multiplier is at least as long and no more exposed |
| RouteTradeoff.DetourBound | internal/saferoutes/repository.go:178-186 | a route with multiplier m is at most (1+m) times the shortest |
| RouteTradeoff.TradeoffExactly | internal/saferoutes/repository.go:257-261 | for m1 < m2 the trade-off is guaranteed exactly when m2 is positive |
| RouteTradeoff.ReportedTradeoff | internal/saferoutes/service.go:86-108 | the reported distance does not fall and the reported average risk does not rise with the multiplier |
| RouteTradeoff.SafestCanScoreHigher | internal/saferoutes/risk_aggregation.go:46 | a concrete graph on which the cheapest safest walk has the higher blended score |
| RouteTradeoff.ScoreNeverRisesExactly | internal/saferoutes/risk_aggregation.go:42-46 | for m1 < m2 the blended score cannot rise on any graph exactly when edges carry at most two different risks (at most one when m2 is not positive) |
| RouteTradeoff.ReportedScoreFalls | internal/saferoutes/risk_aggregation.go:46-80 | under that condition the reported score does not rise with the multiplier |
| Rounding.Round1Near | internal/saferoutes/risk_aggregation.go:187 | rounding to one decimal moves a value by at most 0.05 |
| Rounding.Round1Exactly | internal/saferoutes/risk_aggregation.go:187 | the nearest tenth, the farther from zero of two |
| Rounding.Round3Monotone | internal/saferoutes/risk_aggregation.go:189 | rounding to three decimals keeps order |
| Rounding.Round3Exactly | internal/saferoutes/risk_aggregation.go:189 | the nearest thousandth, the farther from zero of two |
| RouteAggregation.AggregateRoute | internal/saferoutes/risk_aggregation.go:9-95 | one pass yields the totals, blend, levels, shares, segments and first riskiest edge of the path |
| RouteAggregation.ScanPath | internal/saferoutes/risk_aggregation.go:10-40 | the accumulators equal the sums of the path, and the index is the first argmax |
| RouteAggregation.RouteWrittenOut | internal/saferoutes/risk_aggregation.go:42-89 | score, average and worst edge of a route in the terms of its edges: three parts length-weighted average, one part worst edge, rounded, with the level of the unrounded score |
| RouteAggregation.TotalsWrittenOut | internal/saferoutes/risk_aggregation.go:16-38 | distance, duration, high-risk metres and every count are the sums of the edges' own |
| RouteAggregation.SegmentsWrittenOut | internal/saferoutes/risk_aggregation.go:34-73 | segments and riskiest edge field by field |
| RouteAggregation.LevelWrittenOut | internal/saferoutes/risk_aggregation.go:165-174 | the three levels by the model's two limits, each limit in the lower level |
| RouteAggregation.FactorWrittenOut | internal/saferoutes/risk_aggregation.go:97-110 | the largest count names the factor, robberies before thefts before threats among equals |
| RouteAggregation.BlendBounds | internal/saferoutes/risk_aggregation.go:42-46 | average <= score <= maximum <= 1, before and after rounding |
| RouteAggregation.RiskiestMatchesMax | internal/saferoutes/risk_aggregation.go:58-73 | the riskiest segment carries the reported maximum |
| RouteAggregation.SegmentsNearDistance | internal/saferoutes/risk_aggregation.go:34-39 | segment lengths miss the reported distance by at most 0.05(n+1) |
| RouteAggregation.SplitInvariant | internal/saferoutes/risk_aggregation.go:9-95 | recording an edge as same-risk pieces changes no distance, duration or risk figure |
| RouteAggregation.ComparisonSigns | internal/saferoutes/risk_aggregation.go:176-185 | comparisons with the fastest have the right sign, are zero for equal routes, and a reduction never exceeds 100 |
| RouteAggregation.ComparisonsWrittenOut | internal/saferoutes/risk_aggregation.go:176-185 | the three comparison fields, and nothing else of the route changes |
| TimeOfDayRisk.AggregateBucketRisk | internal/saferoutes/risk_aggregation.go:117-163 | each bucket's entry is the blend of the rescored path, and the peak is the first bucket of highest rounded score |
| TimeOfDayRisk.BucketEntry | internal/saferoutes/risk_aggregation.go:134-146 | one bucket's loop computes the blend of the path rescored for it |
| TimeOfDayRisk.FindPeak | internal/saferoutes/risk_aggregation.go:149-154 | the first bucket of highest rounded score |
| TimeOfDayRisk.PeakWrittenOut | internal/saferoutes/risk_aggregation.go:149-154 | no bucket scores above the peak, and none that scores as high starts earlier in the day |
| TimeOfDayRisk.LastScoreIsStored | internal/saferoutes/repository.go:386-414 | whatever row order the query returns, each edge gets its stored score, or zero |
| TimeOfDayRisk.OwnBucketAgrees | internal/saferoutes/risk_aggregation.go:112-116 | the entry of the request's own bucket equals the route's score and level |
| TimeOfDayRisk.EntryIsRouteThen | internal/saferoutes/risk_aggregation.go:134-146 | the entry of every bucket is the score and level of a route over the same edges with that bucket's stored risks |
| LeastSafeCandidate.PickLeastSafe | internal/saferoutes/service.go:151-170 | the first admissible candidate of highest reported score; none exactly when all are inadmissible |
| LeastSafeCandidate.PickIsNearlyRiskiest | internal/saferoutes/service.go:162 | no admissible candidate's unrounded risk exceeds the pick's by more than 0.001 |
| LeastSafeCandidate.PickWithinDetour | internal/saferoutes/service.go:158-161 | the pick is within 1.75 times the fastest reported distance |
| LeastSafeCandidate.PickIsUnique | internal/saferoutes/service.go:162 | ties leave one possible pick, the earliest |
| LeastSafeCandidate.PickWrittenOut | internal/saferoutes/service.go:151-170 | a candidate is picked exactly when its summed length is within 1.75 times the fastest, none such scores higher and no earlier one as high |
| RouteCacheKey.KeyInjective | internal/saferoutes/cache.go:51-59 | two requests share a printed key only when all seven fields agree |
| RouteCacheKey.Fixed5Reads | internal/saferoutes/cache.go:57 | a printed coordinate can be read back |
| RouteCacheKey.Fixed5IsNearest | internal/saferoutes/cache.go:57 | a coordinate prints its sign and the nearest number of 1e-5 degrees, the even one of two |
| RouteCacheKey.FiveDecimals | internal/saferoutes/cache.go:57 | five digits follow the point |
| RouteCacheKey.SharedFormIsNear | internal/saferoutes/cache.go:51-52 | coordinates printed alike are within 1e-5 degrees |
| RouteCache.RedisRouteCache.Get | internal/saferoutes/cache_redis.go:35-57 | fails open; every lookup counts as one hit or one miss, faults also as errors |
| RouteCache.RedisRouteCache.Set | internal/saferoutes/cache_redis.go:59-73 | stores with the TTL, or swallows the fault and counts it |
| RouteCache.RedisRouteCache.ReadStats | internal/saferoutes/cache_redis.go:76-89 | a snapshot whose hit rate is hits over lookups, in [0, 1] |
| RouteCache.HitIsFresh | internal/saferoutes/service.go:54-58 | a hit was computed less than one hour earlier for a request with the same five-decimal form of each of the four coordinates, bucket, weekday type and model |
| RouteCache.SharedKeyExactly | internal/saferoutes/cache.go:51-59 | two requests share a printed key exactly when each of the four coordinates prints alike and bucket, weekday type and model agree |
| RouteCache.EntryLivesOneHour | internal/saferoutes/service.go:126-130 | a stored answer is given to requests that share its key for exactly one hour |
| RouteCache.CacheIsTransparent | internal/saferoutes/cache.go:12-20 | in every run, cached or not, each answer carries the routes its own request determines |
| RouteCache.NeverNoticedExactly | internal/saferoutes/cache.go:51-59 | the cache goes unnoticed in every run exactly when requests alike in printed coordinates, bucket, weekday type and model are answered alike |
| RouteCache.HitEchoesFirstRequest | internal/saferoutes/service.go:116-130 | a hit's body equals a fresh one exactly when the filling request had the same coordinates and moment |
| SafeRoutesService.BaseRequest | internal/saferoutes/service.go:60-84 | a request between the snapped nodes exactly when the profiles are seeded and both ends snap within the limit; otherwise the error of the first of these that fails |
| SafeRoutesService.ProfileRoutes | internal/saferoutes/service.go:86-108 | three finished routes in profile order compared with the fastest, or the error of the first profile that fails |
| SafeRoutesService.ProfilesWrittenOut | internal/saferoutes/service.go:86-108 | the routes are fastest, balanced and safest, each aggregated from the path found under its own multiplier |
| SafeRoutesService.ComparedWithFirst | internal/saferoutes/service.go:93-114 | every returned route, the contrast one included, is compared with the first |
| SafeRoutesService.LeastSafeRoute | internal/saferoutes/service.go:136-180 | the contrast route, nothing when no candidate is usable, or the repository's error |
| SafeRoutesService.ReadTimeOfDay | internal/saferoutes/service.go:185-200 | the path's time-of-day profile, nothing for an empty path, or the repository's error |
| SafeRoutesService.SafeRoutes | internal/saferoutes/service.go:30-132 | error order, cache placement and the answer: a hit at once, else computed routes stored under the key; errors store nothing |
| SafeRoutesService.ServedAsSteps | internal/saferoutes/service.go:51-132 | an uninterrupted request is a lookup followed by a computed answer or a failure of the cache runs |
| SafeRoutesService.ProfilesAreOrdered | internal/saferoutes/service.go:86-108 | with rising effective multipliers the three reported distances do not fall and the average risks do not rise |
| GraphCleanup.RoadEdges.Cleanup | scripts/osm/cleanup_road_graph.sql:46-122 | the statements in order give the cleaned table |
| GraphCleanup.FirstMatchingRuleWins | scripts/osm/cleanup_road_graph.sql:49-113 | no row is lost, imported columns are untouched, and an edge stays routable exactly when its geometry is sound, its length in (0, 5000], its ends differ and it starts in the giant component; otherwise it carries the first of these it fails |
| GraphCleanup.CleanupIdempotent | scripts/osm/cleanup_road_graph.sql:1-6 | rerunning gives the same state but for the check time |
| GraphCleanup.CleanupLeavesOneGraph | scripts/osm/cleanup_road_graph.sql:86-113 | any two nodes of the routable surface are joined by a walk over surviving edges |
| GraphCleanup.KeepsTheLargest | scripts/osm/cleanup_road_graph.sql:99-105 | the surface's nodes are a component no other component exceeds |
| GraphCleanup.SurfaceIsSound | scripts/osm/cleanup_road_graph.sql:62-84 | every surface edge has a length in (0, 5000] and two different ends, and edge ids stay unique: what search, routing and aggregation assume |
| GraphCleanup.LeastLabelsMeetContract | scripts/osm/cleanup_road_graph.sql:91-98 | the contract asked of the component engine can be met |
| GraphCleanup.GiantExists | scripts/osm/cleanup_road_graph.sql:99-105 | the contract asked of the largest-first choice can be met |
| GraphCleanup.SnappedNodesHaveRoute | internal/saferoutes/repository.go:99-147 | two snapped nodes are joined by a route, non-empty when they differ |
| GraphCleanup.SnapsToNearerEnd | internal/saferoutes/repository.go:121-138 | a point snaps to the nearer end of its edge, the first one at equal distances |
| SessionStore.Repository.CreateSession | internal/auth/db/queries/auth.sql:16-19 | appends the row unless its token hash exists |
| SessionStore.Repository.RevokeSession | internal/auth/db/queries/auth.sql:26-29 | revokes a live row, leaves a revoked one alone |
| SessionStore.Repository.RotateSession | internal/auth/repository.go:112-138 | inserts the successor and links the old row if still live, atomically |
| SessionStore.Service.Login | internal/auth/service.go:58-95 | succeeds exactly for a non-empty email and password of a known, active user that match, and adds one session; each refusal has its own error |
| SessionStore.Service.Refresh | internal/auth/service.go:99-126 | uninterrupted, succeeds exactly for a known token whose row is not revoked and expires later than now, and replaces its session |
| SessionStore.Service.Logout | internal/auth/service.go:130-148 | idempotent revocation; an empty or unknown token changes nothing |
| SessionRuns.WrittenOnce | internal/auth/db/queries/auth.sql:26-34 | over any run revoked_at and replaced_by are written at most once |
| SessionRuns.LinksAlwaysSound | internal/auth/repository.go:112-138 | in every reachable state a link leads to a later session of the same user, and no session has two predecessors |
| SessionRuns.ChainsMoveForward | internal/auth/repository.go:108-109 | replacement chains are acyclic |
| SessionRuns.NoRefreshAfterWrite | internal/auth/service.go:99-148 | after a refresh or logout has written, a refresh of that token looked up later creates no session |
| SessionRuns.LookupRejected | internal/auth/service.go:112-114 | such a later lookup is rejected outright |
| SessionRuns.RefreshFoundLive | internal/auth/service.go:104-124 | over any run, every session a refresh creates goes back to a lookup that found the presented row neither revoked nor expired, and belongs to its user |
| SessionRuns.LiveSessionsConserved | internal/auth/db/queries/auth.sql:16-34 | live sessions = logins - effective logouts + rotations that hit no row, per login and over the table |
| SessionRuns.SeveralLiveExactly | internal/auth/repository.go:126-136 | a login has several live sessions exactly when its missed rotations outnumber its effective logouts |
| SessionRuns.SequentialOneLive | internal/auth/service.go:99-148 | without interleaving each login has at most one live session, its last |
| SessionRuns.InterleavedTwoLive | internal/auth/service.go:99-126 | a concrete interleaving that leaves two live sessions of one login |
| SessionRuns.RunExists | internal/auth/service.go:58-148 | every sequence of steps is a run |
| SessionRuns.RefreshIsSteps | internal/auth/service.go:99-126 | a lookup and its write in a row do what an uninterrupted refresh does |
| SessionRuns.LogoutIsSteps | internal/auth/service.go:130-148 | a lookup and its write in a row do what an uninterrupted logout does |
| SessionRuns.LoginIsStep | internal/auth/service.go:82-95 | a login adds its live row unless the token hash exists |
| KeysetPaging.FindNearby | internal/crimes/repository.go:56-120 | a page keeps the first rows after the cursor and has a next cursor exactly when more follow |
| KeysetPaging.EveryStableRowOnce | internal/crimes/repository.go:27-45 | with the table changing between pages, a finished walk returns every row present throughout exactly once, ascending |
| KeysetPaging.WalkListsTable | internal/crimes/repository.go:27-45 | over an unchanged table the walk lists exactly the in-radius rows |
| KeysetPaging.PageCount | internal/crimes/repository.go:109-119 | n rows take max(1, ceil(n/limit)) pages |
| KeysetPaging.WalkFinishes | internal/crimes/repository.go:110-117 | following the next cursor comes to an end |
| BatchedLoad.Loader.Load | etl/python/load_to_postgres.py:125-169 | for any batch size the table ends as under one-by-one last-wins upserts, no statement holds a key twice, counters add up |
| BatchedLoad.Loader.Flush | etl/python/load_to_postgres.py:118-122 | one statement for the batch, none for an empty one |
| BatchedLoad.PutIsUpsert | etl/python/load_to_postgres.py:156 | putting a row in the batch has the effect of one more upsert |
| BatchedLoad.LastLineWins | etl/python/load_to_postgres.py:125-169 | the loaded table holds under each key the columns of the last usable line with it, and is otherwise unchanged |
| BacktestRanking.TopIsPrefix | etl/risk_network_kde/evaluate.py:66-74 | the top fraction is the longest prefix within the cutoff, or the first row |
| BacktestRanking.TopIsRiskiest | etl/risk_network_kde/evaluate.py:66-74 | no edge left out is predicted riskier than one taken in |
| BacktestRanking.ShareGrows | etl/risk_network_kde/evaluate.py:69-77 | captured shares lie in [0, 1] and grow with the fraction |
| BacktestRanking.ShareWrittenOut | etl/risk_network_kde/evaluate.py:69-75 | the share times the total is the future score of the top fraction |
| BacktestRanking.DecileDensities | etl/risk_network_kde/evaluate.py:80-92 | each density spread over the length of its decile makes up its future score, and over the ten deciles the total |
| BacktestRanking.DecilesPartition | etl/risk_network_kde/evaluate.py:85-92 | every row falls in exactly one decile; lengths and future scores add up |
| BacktestRanking.DecilesFollowRisk | etl/risk_network_kde/evaluate.py:80-92 | no edge of a lower decile is predicted riskier than one of a higher |
| BacktestRanking.DensitiesConserveFuture | etl/risk_network_kde/evaluate.py:80-92 | density times length over the ten deciles is the total future score |

## Left out

- Floating-point error: sums, exponentials and powers are taken over the reals; only `round1`, `round3` and the five-decimal key are rounded, as written.
- BoundedSearch.Heap: the heap is the contract of Python's heapq, not its array layout.
- Neighborhoods.NeighborhoodJob.Run: the printing of distances with three decimals, the progress output and the percentiles of target counts are not modelled.
- RiskPipeline.CrimesReachByNetworkDistance: the decay is over the exact network distance, before it is printed with three decimals.
- The exponential, power and severity tables of the scoring query: any functions, non-negative where a lemma says so.
- The routing engine, k-shortest paths, connected components and nearest-edge search: taken by their contracts (cheapest walk, list of candidates, equal labels exactly for connected nodes, an edge of the routable surface).
- SafeRoutesService.SafeRoutes: a request whose two ends snap to one node gets the engine's empty path and with it the no-route error; the repository's answer is a parameter here, so the model only says that the error is passed on.
- KeysetPaging.FindNearby: the SQL query is taken by its contract, and row decoding and cursor encoding are not modelled.
- BatchedLoad.Loader.Load: surrogate ids and timestamps are not part of the table, keys are strings, and an exception that aborts the run (an unhashable key) is not modelled.
- SessionRuns.RunExists: row ids are positions in order of creation rather than random UUIDs; audit rows and login attempts are not modelled.
- GraphCleanup.RoadEdges.Cleanup: among equally large components the choice is a function of the labelling; the database leaves it open.
- BacktestRanking.TopIsPrefix: precision, rank correlation, the gate and the stored run record are not modelled.
- MaxDetourRatio is loaded but never enforced, so nothing is claimed about it.
- Geometry, HTTP, authentication tokens, rate limits, the directions client, normalisation of raw data, calibration and the Mongo loader: plumbing or easy members.
