/** A route's risk across the four time buckets, and its agreement with the route's own score. */
module TimeOfDayRisk {
  import opened Arithmetic
  import opened Options
  import opened RiskContexts
  import opened Rounding
  import opened RouteAggregation

  /** A row of edge_risk_scores for one weekday type. */
  datatype EdgeBucketRisk = EdgeBucketRisk(edge: int, bucket: TimeBucket, risk: real)

  /** The score a later row gives, else an earlier one, else zero. */
  function LastScore(rows: seq<EdgeBucketRisk>, bucket: TimeBucket, edge: int): real {
    if rows == [] then 0.0
    else
      var r := rows[|rows| - 1];
      if r.bucket == bucket && r.edge == edge then r.risk else LastScore(rows[..|rows| - 1], bucket, edge)
  }

  /** The same path, scored for another bucket. */
  function Rescored(edges: seq<PathEdge>, rows: seq<EdgeBucketRisk>, bucket: TimeBucket): (r: seq<PathEdge>)
    ensures |r| == |edges|
  {
    seq(|edges|, i requires 0 <= i < |edges| => edges[i].(risk := LastScore(rows, bucket, edges[i].id)))
  }

  function BucketRiskOf(edges: seq<PathEdge>, rows: seq<EdgeBucketRisk>, bucket: TimeBucket, model: Model): BucketRisk {
    var score := Blend(SumPath(Rescored(edges, rows, bucket), model.moderateMax));
    BucketRisk(Round3(score), RiskLevel(score, model))
  }

  /** The first bucket of the day with the highest rounded score. */
  ghost predicate IsPeak(entries: map<TimeBucket, BucketRisk>, peak: TimeBucket) {
    exists p :: 0 <= p < |BUCKETS| && BUCKETS[p] == peak && IsPeakAt(entries, p)
  }

  ghost predicate IsPeakAt(entries: map<TimeBucket, BucketRisk>, p: int)
    requires 0 <= p < |BUCKETS|
  {
    && (forall b :: b in BUCKETS ==> b in entries)
    && (forall q :: 0 <= q < |BUCKETS| ==> entries[BUCKETS[q]].score <= entries[BUCKETS[p]].score)
    && (forall q :: 0 <= q < p ==> entries[BUCKETS[q]].score < entries[BUCKETS[p]].score)
  }

  ghost predicate IsTimeOfDay(t: TimeOfDay, edges: seq<PathEdge>, rows: seq<EdgeBucketRisk>, model: Model) {
    && (forall b :: b in t.entries <==> b in BUCKETS)
    && (forall b :: b in BUCKETS ==> t.entries[b] == BucketRiskOf(edges, rows, b, model))
    && IsPeak(t.entries, t.peak)
  }

  method AggregateBucketRisk(edges: seq<PathEdge>, perBucket: seq<EdgeBucketRisk>, model: Model)
    returns (result: Option<TimeOfDay>)
    ensures result.None? <==> edges == []
    ensures result.Some? ==> IsTimeOfDay(result.value, edges, perBucket, model)
  {
    if edges == [] {
      return None;
    }
    var scores := IndexScores(perBucket);
    var entries: map<TimeBucket, BucketRisk> := map[];
    for b := 0 to |BUCKETS|
      invariant forall k :: k in entries <==> k in BUCKETS[..b]
      invariant forall k :: k in BUCKETS[..b] ==> entries[k] == BucketRiskOf(edges, perBucket, k, model)
    {
      var entry := BucketEntry(edges, perBucket, scores, BUCKETS[b], model);
      entries := entries[BUCKETS[b] := entry];
      assert BUCKETS[..b + 1] == BUCKETS[..b] + [BUCKETS[b]];
    }
    assert BUCKETS[..|BUCKETS|] == BUCKETS;
    var peak := FindPeak(entries);
    result := Some(TimeOfDay(entries, peak));
  }

  method IndexScores(perBucket: seq<EdgeBucketRisk>) returns (scores: map<(TimeBucket, int), real>)
    ensures forall b, e :: Lookup(scores, b, e) == LastScore(perBucket, b, e)
  {
    scores := map[];
    for i := 0 to |perBucket|
      invariant forall b, e :: Lookup(scores, b, e) == LastScore(perBucket[..i], b, e)
    {
      var r := perBucket[i];
      scores := scores[(r.bucket, r.edge) := r.risk];
      assert perBucket[..i + 1][..i] == perBucket[..i];
    }
    assert perBucket[..|perBucket|] == perBucket;
  }

  /** A missing key reads as zero risk. */
  function Lookup(scores: map<(TimeBucket, int), real>, bucket: TimeBucket, edge: int): real {
    if (bucket, edge) in scores then scores[(bucket, edge)] else 0.0
  }

  method BucketEntry(edges: seq<PathEdge>, ghost rows: seq<EdgeBucketRisk>, scores: map<(TimeBucket, int), real>,
                     bucket: TimeBucket, model: Model) returns (entry: BucketRisk)
    requires forall b, e :: Lookup(scores, b, e) == LastScore(rows, b, e)
    ensures entry == BucketRiskOf(edges, rows, bucket, model)
  {
    var length, weighted, maxRisk := 0.0, 0.0, 0.0;
    ghost var rescored := Rescored(edges, rows, bucket);
    for i := 0 to |edges|
      invariant HasSums(SumPath(rescored[..i], model.moderateMax), length, weighted, maxRisk)
    {
      var risk := Lookup(scores, bucket, edges[i].id);
      assert rescored[..i + 1] == rescored[..i] + [rescored[i]];
      AddRescored(rescored[..i], rescored[i], model.moderateMax, length, weighted, maxRisk);
      length, weighted, maxRisk := length + edges[i].length, weighted + edges[i].length * risk, Max(maxRisk, risk);
    }
    assert rescored[..|edges|] == rescored;
    var sums := NO_SUMS.(length := length, weighted := weighted, maxRisk := maxRisk);
    BlendDependsOn(sums, SumPath(rescored, model.moderateMax));
    var score := Blend(sums);
    entry := BucketRisk(Round3(score), RiskLevel(score, model));
  }

  predicate HasSums(s: Sums, length: real, weighted: real, maxRisk: real) {
    s.length == length && s.weighted == weighted && s.maxRisk == maxRisk
  }

  lemma AddRescored(before: seq<PathEdge>, e: PathEdge, highAbove: real, length: real, weighted: real, maxRisk: real)
    requires HasSums(SumPath(before, highAbove), length, weighted, maxRisk)
    ensures HasSums(SumPath(before + [e], highAbove), length + e.length, weighted + e.length * e.risk, Max(maxRisk, e.risk))
  {
    SumPathAppend(before, e, highAbove);
    AddEdge(SumPath(before, highAbove), e, highAbove);
  }

  lemma BlendDependsOn(s: Sums, t: Sums)
    requires s.length == t.length && s.weighted == t.weighted && s.maxRisk == t.maxRisk
    ensures Blend(s) == Blend(t)
  {
  }

  method FindPeak(entries: map<TimeBucket, BucketRisk>) returns (peak: TimeBucket)
    requires forall b :: b in BUCKETS ==> b in entries
    ensures IsPeak(entries, peak)
  {
    peak := BUCKETS[0];
    ghost var p := 0;
    for q := 1 to |BUCKETS|
      invariant 0 <= p < q && BUCKETS[p] == peak && peak in entries
      invariant forall r :: 0 <= r < q ==> BUCKETS[r] in entries && entries[BUCKETS[r]].score <= entries[peak].score
      invariant forall r :: 0 <= r < p ==> entries[BUCKETS[r]].score < entries[peak].score
    {
      assert BUCKETS[q] in BUCKETS;
      if entries[BUCKETS[q]].score > entries[peak].score {
        peak, p := BUCKETS[q], q;
      }
    }
    assert IsPeakAt(entries, p);
  }

  // ---------- agreement with the route's own score ----------

  datatype ScoreKey = ScoreKey(edge: int, model: int, bucket: TimeBucket, weekday: WeekdayType)

  /** edge_risk_scores under its primary key; a missing row reads as zero risk. */
  function StoredRisk(table: map<ScoreKey, real>, key: ScoreKey): real {
    if key in table then table[key] else 0.0
  }

  /** The rows for the given edges, one model and one weekday type, over the four timed buckets, in any order. */
  ghost predicate IsBucketAnswer(table: map<ScoreKey, real>, ids: set<int>, model: int, weekday: WeekdayType,
                                 rows: seq<EdgeBucketRisk>) {
    && (forall r :: r in rows ==>
          r.edge in ids && r.bucket in BUCKETS &&
          ScoreKey(r.edge, model, r.bucket, weekday) in table &&
          r.risk == table[ScoreKey(r.edge, model, r.bucket, weekday)])
    && (forall e, b :: e in ids && b in BUCKETS && ScoreKey(e, model, b, weekday) in table ==>
          EdgeBucketRisk(e, b, table[ScoreKey(e, model, b, weekday)]) in rows)
  }

  lemma {:induction false} LastScoreFromRows(rows: seq<EdgeBucketRisk>, bucket: TimeBucket, edge: int)
    ensures (exists r :: r in rows && r.bucket == bucket && r.edge == edge && r.risk == LastScore(rows, bucket, edge))
            || (LastScore(rows, bucket, edge) == 0.0 && forall r :: r in rows ==> !(r.bucket == bucket && r.edge == edge))
  {
    if rows != [] {
      var before, last := rows[..|rows| - 1], rows[|rows| - 1];
      LastScoreFromRows(before, bucket, edge);
      assert rows == before + [last];
      assert last in rows;
      if !(last.bucket == bucket && last.edge == edge) {
        if r :| r in before && r.bucket == bucket && r.edge == edge && r.risk == LastScore(before, bucket, edge) {
          assert r in rows;
        }
      }
    }
  }

  /** Whatever order the database returns, each edge gets its stored score. */
  lemma LastScoreIsStored(table: map<ScoreKey, real>, ids: set<int>, model: int, weekday: WeekdayType,
                          rows: seq<EdgeBucketRisk>, bucket: TimeBucket, edge: int)
    requires IsBucketAnswer(table, ids, model, weekday, rows) && edge in ids && bucket in BUCKETS
    ensures LastScore(rows, bucket, edge) == StoredRisk(table, ScoreKey(edge, model, bucket, weekday))
  {
    LastScoreFromRows(rows, bucket, edge);
  }

  /** The path edges carry the stored risk of the request's context, as the routing query returns them. */
  ghost predicate IsEnriched(edges: seq<PathEdge>, table: map<ScoreKey, real>, model: int, bucket: TimeBucket, weekday: WeekdayType) {
    forall e :: e in edges ==> e.risk == StoredRisk(table, ScoreKey(e.id, model, bucket, weekday))
  }

  /** The path with the stored risks of bucket b in place of its own. */
  ghost predicate IsPathAt(other: seq<PathEdge>, edges: seq<PathEdge>, table: map<ScoreKey, real>, model: int,
                           b: TimeBucket, weekday: WeekdayType) {
    |other| == |edges| && forall i :: 0 <= i < |edges| ==>
      other[i] == edges[i].(risk := StoredRisk(table, ScoreKey(edges[i].id, model, b, weekday)))
  }

  /** The entry of every bucket is the score and level of a route over the same edges in that bucket. */
  lemma EntryIsRouteThen(t: TimeOfDay, edges: seq<PathEdge>, rows: seq<EdgeBucketRisk>, model: Model, table: map<ScoreKey, real>,
                         weekday: WeekdayType, b: TimeBucket, other: seq<PathEdge>, route: SafeRoute, kind: RouteKind)
    requires IsTimeOfDay(t, edges, rows, model) && b != AllDay
    requires IsBucketAnswer(table, set e | e in edges :: e.id, model.id, weekday, rows)
    requires IsPathAt(other, edges, table, model.id, b, weekday) && IsRouteOf(route, kind, other, model)
    ensures b in t.entries && t.entries[b] == BucketRisk(route.riskScore, route.level)
  {
    assert b in BUCKETS by { AllTimedBuckets(b); }
    forall i | 0 <= i < |edges| ensures Rescored(edges, rows, b)[i] == other[i] {
      assert edges[i] in edges;
      LastScoreIsStored(table, set e | e in edges :: e.id, model.id, weekday, rows, b, edges[i].id);
    }
    assert Rescored(edges, rows, b) == other;
  }

  /** Two computations of one number: the time-of-day entry of the request's own bucket is the route's own score and level. */
  lemma OwnBucketAgrees(route: SafeRoute, kind: RouteKind, edges: seq<PathEdge>, model: Model, table: map<ScoreKey, real>,
                        hour: int, isoDay: int, rows: seq<EdgeBucketRisk>, t: TimeOfDay)
    requires IsEnriched(edges, table, model.id, HourToTimeBucket(hour), DayToWeekdayType(isoDay))
    requires IsBucketAnswer(table, set e | e in edges :: e.id, model.id, DayToWeekdayType(isoDay), rows)
    requires IsRouteOf(route, kind, edges, model) && IsTimeOfDay(t, edges, rows, model)
    ensures HourToTimeBucket(hour) in t.entries
    ensures t.entries[HourToTimeBucket(hour)] == BucketRisk(route.riskScore, route.level)
  {
    var bucket, weekday := HourToTimeBucket(hour), DayToWeekdayType(isoDay);
    forall i | 0 <= i < |edges|
      ensures edges[i] == edges[i].(risk := StoredRisk(table, ScoreKey(edges[i].id, model.id, bucket, weekday)))
    {
      assert edges[i] in edges;
    }
    EntryIsRouteThen(t, edges, rows, model, table, weekday, bucket, edges, route, kind);
  }

  lemma AllTimedBuckets(b: TimeBucket)
    ensures b in BUCKETS <==> b != AllDay
  {
    assert BUCKETS[0] == Morning && BUCKETS[1] == Afternoon && BUCKETS[2] == Evening && BUCKETS[3] == Night;
  }

  /** No bucket scores higher than the peak, and one that scores as high does not start earlier in the day. */
  lemma PeakWrittenOut(entries: map<TimeBucket, BucketRisk>, peak: TimeBucket)
    requires forall b :: b != AllDay ==> b in entries
    ensures IsPeak(entries, peak) <==>
            peak != AllDay && forall b :: b != AllDay ==>
              entries[b].score < entries[peak].score || (entries[b].score == entries[peak].score && StartOf(peak) <= StartOf(b))
  {
    assert BUCKETS[0] == Morning && BUCKETS[1] == Afternoon && BUCKETS[2] == Evening && BUCKETS[3] == Night;
    forall b ensures b in BUCKETS <==> b != AllDay { AllTimedBuckets(b); }
    if peak != AllDay {
      var p := PlaceOf(peak);
      assert BUCKETS[p] == peak;
      PeakAt(entries, p);
    }
  }

  function PlaceOf(b: TimeBucket): int {
    match b
    case Morning => 0
    case Afternoon => 1
    case Evening => 2
    case Night => 3
    case AllDay => 4
  }

  lemma PeakAt(entries: map<TimeBucket, BucketRisk>, p: int)
    requires 0 <= p < |BUCKETS| && forall b :: b != AllDay ==> b in entries
    ensures IsPeakAt(entries, p) <==>
            forall b :: b != AllDay ==>
              entries[b].score < entries[BUCKETS[p]].score ||
              (entries[b].score == entries[BUCKETS[p]].score && StartOf(BUCKETS[p]) <= StartOf(b))
  {
    assert BUCKETS[0] == Morning && BUCKETS[1] == Afternoon && BUCKETS[2] == Evening && BUCKETS[3] == Night;
    forall b ensures b in BUCKETS <==> b != AllDay { AllTimedBuckets(b); }
    forall b | b != AllDay ensures BUCKETS[PlaceOf(b)] == b {}
    forall q | 0 <= q < |BUCKETS| ensures BUCKETS[q] != AllDay && (q < p <==> StartOf(BUCKETS[q]) < StartOf(BUCKETS[p])) {}
  }
}
