/** The offline pipeline end to end: stored neighbourhoods feed the scoring, and the scores feed the clamp. */
module RiskPipeline {
  import opened Options
  import opened RiskContexts
  import opened RoadGraph
  import opened Neighborhoods
  import opened NeighborhoodLaws
  import opened RiskScoring
  import opened PercentileClamp

  /** The table a finished neighbourhood job leaves behind satisfies the primary key the scoring join relies on. */
  lemma JobRowsAreUnique(rows: seq<EdgeRow>, graphVersion: int, bandwidth: real, edges: map<int, EdgeRow>,
                         ids: seq<int>, blocks: seq<seq<Row>>, table: seq<Row>)
    requires IsFinishedJob(rows, graphVersion, bandwidth, edges, ids, blocks) && UniqueNeighbors(table)
    ensures UniqueNeighbors(TableAfter(table, graphVersion, bandwidth, blocks))
  {
    StoredOnce(rows, graphVersion, bandwidth, edges, ids, blocks, table);
  }

  /** Whatever other versions and bandwidths the table holds, a crime reaches an edge exactly when the edge it
  snapped to is a network neighbour, and its contribution decays over the midpoint-to-midpoint network distance. */
  lemma CrimesReachByNetworkDistance(rows: seq<EdgeRow>, edges: map<int, EdgeRow>, ids: seq<int>, blocks: seq<seq<Row>>,
                                     table: seq<Row>, p: Params, s: Snap, from: EdgeRow, to: EdgeRow)
    requires IsFinishedJob(rows, p.graphVersion, p.bandwidth, edges, ids, blocks)
    requires from in rows && to in rows && s.graphVersion == p.graphVersion && s.edge == from.id
    ensures var neighbors := TableAfter(table, p.graphVersion, p.bandwidth, blocks);
            && (Reaches(p, s, neighbors, to.id) <==> exists d :: IsNeighbor(rows, p.bandwidth, from, to, d))
            && (Reaches(p, s, neighbors, to.id) ==>
                  IsNeighbor(rows, p.bandwidth, from, to, ReachingRow(p, s, neighbors, to.id).distance))
  {
    var neighbors := TableAfter(table, p.graphVersion, p.bandwidth, blocks);
    if Reaches(p, s, neighbors, to.id) {
      var n := ReachingRow(p, s, neighbors, to.id);
      assert ReachesBy(p, s, neighbors, to.id, n);
      TableHolds(rows, p.graphVersion, p.bandwidth, edges, ids, blocks, table, n);
      StoredExactly(rows, p.graphVersion, p.bandwidth, edges, ids, blocks, from, to, n.distance);
      assert n == Row(p.graphVersion, from.id, to.id, p.bandwidth, n.distance);
    }
    if d :| IsNeighbor(rows, p.bandwidth, from, to, d) {
      var n := Row(p.graphVersion, from.id, to.id, p.bandwidth, d);
      StoredExactly(rows, p.graphVersion, p.bandwidth, edges, ids, blocks, from, to, d);
      TableHolds(rows, p.graphVersion, p.bandwidth, edges, ids, blocks, table, n);
      assert ReachesBy(p, s, neighbors, to.id, n);
    }
  }

  // ---------- non-negative scores ----------

  ghost predicate NonNegativeFactors(p: Params) {
    && p.weaponMultiplier >= 0.0 && p.motorcycleMultiplier >= 0.0
    && (forall k :: p.severity(k) >= 0.0) && (forall d :: p.snapFactor(d) >= 0.0)
    && (forall d :: p.networkFactor(d) >= 0.0) && (forall t :: p.recencyFactor(t) >= 0.0)
  }

  lemma Product(a: real, b: real)
    requires a >= 0.0 && b >= 0.0
    ensures a * b >= 0.0
  {
  }

  lemma ContributionNonNegative(p: Params, c: Crime, s: Snap, n: Row)
    requires NonNegativeFactors(p) && c.quantity >= 0
    ensures CrimeContribution(p, c, s, n) >= 0.0
  {
  }

  lemma ScoreNonNegative(p: Params, crimes: map<int, Crime>, s: Snap, neighbors: seq<Row>, e: int, x: Context)
    requires NonNegativeFactors(p) && NonNegativeWeights(p, x) && forall id :: id in crimes ==> crimes[id].quantity >= 0
    ensures Score(p, crimes, s, neighbors, e, x) >= 0.0
  {
    if Hits(p, crimes, s, neighbors, e) {
      var c, n := crimes[s.crime], ReachingRow(p, s, neighbors, e);
      ContributionNonNegative(p, c, s, n);
      var k := Key(e, HourToTimeBucket(c.hour), DayToWeekdayType(c.isoDay));
      assert IsCrimeKey(k);
      WeightWrittenOut(p, c, k, x);
      Product(CrimeContribution(p, c, s, n), TimeFactor(p, c.hour, x.bucket) * DayFactor(p, c.isoDay, x.weekday));
    }
  }

  lemma {:induction false} ScoreSumNonNegative(p: Params, crimes: map<int, Crime>, snaps: seq<Snap>, neighbors: seq<Row>, e: int, x: Context)
    requires NonNegativeFactors(p) && NonNegativeWeights(p, x) && forall id :: id in crimes ==> crimes[id].quantity >= 0
    ensures ScoreSum(p, crimes, snaps, neighbors, e, x) >= 0.0
  {
    if snaps != [] {
      ScoreSumNonNegative(p, crimes, snaps[..|snaps| - 1], neighbors, e, x);
      ScoreNonNegative(p, crimes, snaps[|snaps| - 1], neighbors, e, x);
    }
  }

  /** raw is the raw_score column of ctx_scores for context x, as stage 2 leaves it. */
  ghost predicate IsRawColumn(p: Params, groups: seq<Group>, raw: map<(int, Context), real>, x: Context) {
    forall e :: ((e, x) in raw <==> FromGroups(p, groups, e, x).Some?) &&
                ((e, x) in raw ==> raw[(e, x)] == FromGroups(p, groups, e, x).value.raw)
  }

  /** The surface value of an edge is its crimes' score sum, zero included. */
  lemma SurfaceIsScoreSum(p: Params, crimes: map<int, Crime>, snaps: seq<Snap>, neighbors: seq<Row>, groups: seq<Group>,
                          raw: map<(int, Context), real>, edges: seq<int>, x: Context, i: int)
    requires UniqueNeighbors(neighbors) && 0 <= i < |edges|
    requires IsGrouping(JoinPairs(p, crimes, snaps, neighbors), groups) && IsRawColumn(p, groups, raw, x)
    ensures Surface(edges, raw, x)[i] == ScoreSum(p, crimes, snaps, neighbors, edges[i], x)
  {
    ScoresEveryCrimeOnce(p, crimes, snaps, neighbors, groups, edges[i], x);
  }

  predicate InUnit(r: real) {
    0.0 <= r <= 1.0
  }

  /** Whole pipeline: in every context the stored risks order the routable edges as the sums of their crimes'
  contributions do, and lie in [0, 1] when neither a factor, a weight nor a quantity is negative. */
  lemma StoredRisksOrderEdges(p: Params, crimes: map<int, Crime>, snaps: seq<Snap>, neighbors: seq<Row>, groups: seq<Group>,
                              raw: map<(int, Context), real>, model: int, edges: seq<int>, x: Context, i: int, j: int)
    requires UniqueNeighbors(neighbors) && 0 <= i < |edges| && 0 <= j < |edges|
    requires IsGrouping(JoinPairs(p, crimes, snaps, neighbors), groups) && IsRawColumn(p, groups, raw, x)
    requires ScoreSum(p, crimes, snaps, neighbors, edges[i], x) <= ScoreSum(p, crimes, snaps, neighbors, edges[j], x)
    ensures ContextRows(model, edges, raw, x)[i].risk <= ContextRows(model, edges, raw, x)[j].risk
    ensures NonNegativeFactors(p) && NonNegativeWeights(p, x) && (forall id :: id in crimes ==> crimes[id].quantity >= 0) ==>
              InUnit(ContextRows(model, edges, raw, x)[i].risk)
  {
    SurfaceIsScoreSum(p, crimes, snaps, neighbors, groups, raw, edges, x, i);
    SurfaceIsScoreSum(p, crimes, snaps, neighbors, groups, raw, edges, x, j);
    var s := Surface(edges, raw, x);
    ClampLaws(s[i], s[j], Percentile95(s));
    if NonNegativeFactors(p) && NonNegativeWeights(p, x) && forall id :: id in crimes ==> crimes[id].quantity >= 0 {
      ScoreSumNonNegative(p, crimes, snaps, neighbors, edges[i], x);
    }
  }
}
