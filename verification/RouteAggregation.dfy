/** From a raw path to the figures of a route: totals, the 0.75/0.25 risk blend, segments, time-of-day risk. */
module RouteAggregation {
  import opened Arithmetic
  import opened Options
  import opened RiskContexts
  import opened Rounding

  datatype Model = Model(id: int, lowMax: real, moderateMax: real)

  /** The three profiles and the contrast route. */
  datatype RouteKind = Fastest | Balanced | Safest | LeastSafe

  datatype Metrics = Metrics(crime: int, robbery: int, theft: int, threats: int, armed: int, motorcycle: int, sameBucket: int)

  /** One traversed edge with its risk and crime components for the resolved context. */
  datatype PathEdge = PathEdge(id: int, length: real, duration: real, risk: real, metrics: Metrics, lat: real, lng: real)

  datatype Segment = Segment(risk: real, robbery: int, length: real, lat: real, lng: real)

  datatype Level = Low | Moderate | High

  datatype Riskiest = Riskiest(risk: real, level: Level, length: real, lat: real, lng: real, metrics: Metrics)

  datatype Factor = NoFactor | Robbery | Theft | Threats

  datatype BucketRisk = BucketRisk(score: real, level: Level)

  datatype TimeOfDay = TimeOfDay(entries: map<TimeBucket, BucketRisk>, peak: TimeBucket)

  datatype SafeRoute = SafeRoute(
    kind: RouteKind, distance: real, duration: real,
    riskScore: real, level: Level, highRiskMeters: real, highRiskPercent: real,
    maxEdgeRisk: real, avgEdgeRisk: real, metrics: Metrics,
    riskiest: Option<Riskiest>, segments: seq<Segment>, dominant: Factor, armedShare: real,
    extraDistance: real, extraDuration: real, riskReduction: real, timeOfDay: Option<TimeOfDay>)

  // ---------- totals ----------

  function AddMetrics(a: Metrics, b: Metrics): Metrics {
    Metrics(a.crime + b.crime, a.robbery + b.robbery, a.theft + b.theft, a.threats + b.threats,
            a.armed + b.armed, a.motorcycle + b.motorcycle, a.sameBucket + b.sameBucket)
  }

  const NO_METRICS := Metrics(0, 0, 0, 0, 0, 0, 0)

  datatype Sums = Sums(length: real, duration: real, weighted: real, maxRisk: real, highMeters: real, metrics: Metrics)

  const NO_SUMS := Sums(0.0, 0.0, 0.0, 0.0, 0.0, NO_METRICS)

  function AddSums(a: Sums, b: Sums): Sums {
    Sums(a.length + b.length, a.duration + b.duration, a.weighted + b.weighted,
         Max(a.maxRisk, b.maxRisk), a.highMeters + b.highMeters, AddMetrics(a.metrics, b.metrics))
  }

  /** One edge's share; the risk maximum starts from zero. */
  function SumsOf(e: PathEdge, highAbove: real): Sums {
    Sums(e.length, e.duration, e.length * e.risk, Max(0.0, e.risk), if e.risk > highAbove then e.length else 0.0, e.metrics)
  }

  function SharesOf(edges: seq<PathEdge>, highAbove: real): (shares: seq<Sums>)
    ensures |shares| == |edges|
  {
    seq(|edges|, i requires 0 <= i < |edges| => SumsOf(edges[i], highAbove))
  }

  function Total(shares: seq<Sums>): (t: Sums)
    ensures t.maxRisk >= 0.0
  {
    if shares == [] then NO_SUMS else AddSums(Total(shares[..|shares| - 1]), shares[|shares| - 1])
  }

  function SumPath(edges: seq<PathEdge>, highAbove: real): Sums {
    Total(SharesOf(edges, highAbove))
  }

  lemma AddSumsAssociative(a: Sums, b: Sums, c: Sums)
    ensures AddSums(AddSums(a, b), c) == AddSums(a, AddSums(b, c))
  {
  }

  lemma TotalAppend(a: seq<Sums>, x: Sums)
    ensures Total(a + [x]) == AddSums(Total(a), x)
  {
    assert (a + [x])[..|a|] == a;
  }

  lemma AddNothing(a: Sums)
    requires a.maxRisk >= 0.0
    ensures AddSums(a, NO_SUMS) == a
  {
  }

  lemma {:induction false} TotalConcat(a: seq<Sums>, b: seq<Sums>)
    ensures Total(a + b) == AddSums(Total(a), Total(b))
    decreases |b|
  {
    if b == [] {
      assert a + b == a;
      AddNothing(Total(a));
    } else {
      var before, x := b[..|b| - 1], b[|b| - 1];
      calc {
        Total(a + b);
        { assert a + b == (a + before) + [x]; TotalAppend(a + before, x); }
        AddSums(Total(a + before), x);
        { TotalConcat(a, before); }
        AddSums(AddSums(Total(a), Total(before)), x);
        { AddSumsAssociative(Total(a), Total(before), x); }
        AddSums(Total(a), AddSums(Total(before), x));
        { assert b == before + [x]; TotalAppend(before, x); }
        AddSums(Total(a), Total(b));
      }
    }
  }

  lemma SumPathConcat(a: seq<PathEdge>, b: seq<PathEdge>, highAbove: real)
    ensures SumPath(a + b, highAbove) == AddSums(SumPath(a, highAbove), SumPath(b, highAbove))
  {
    assert SharesOf(a + b, highAbove) == SharesOf(a, highAbove) + SharesOf(b, highAbove);
    TotalConcat(SharesOf(a, highAbove), SharesOf(b, highAbove));
  }

  lemma SumPathAppend(a: seq<PathEdge>, e: PathEdge, highAbove: real)
    ensures SumPath(a + [e], highAbove) == AddSums(SumPath(a, highAbove), SumsOf(e, highAbove))
  {
    assert SharesOf(a + [e], highAbove)[..|a|] == SharesOf(a, highAbove);
  }

  function Average(s: Sums): real {
    if s.length > 0.0 then s.weighted / s.length else 0.0
  }

  /** Three parts length-weighted average, one part worst edge. */
  function Blend(s: Sums): real {
    0.75 * Average(s) + 0.25 * s.maxRisk
  }

  function RiskLevel(score: real, model: Model): Level {
    if score <= model.lowMax then Low
    else if score <= model.moderateMax then Moderate
    else High
  }

  function DominantFactor(m: Metrics): Factor {
    if m.robbery == 0 && m.theft == 0 && m.threats == 0 then NoFactor
    else if m.robbery >= m.theft && m.robbery >= m.threats then Robbery
    else if m.theft >= m.threats then Theft
    else Threats
  }

  function SegmentOf(e: PathEdge): Segment {
    Segment(Round3(e.risk), e.metrics.robbery, Round1(e.length), e.lat, e.lng)
  }

  function SegmentsOf(edges: seq<PathEdge>): seq<Segment> {
    seq(|edges|, i requires 0 <= i < |edges| => SegmentOf(edges[i]))
  }

  /** i is the first edge of highest risk. */
  predicate IsFirstRiskiest(edges: seq<PathEdge>, i: int) {
    && 0 <= i < |edges|
    && (forall j :: 0 <= j < |edges| ==> IsNotRiskier(edges, j, i))
  }

  predicate IsNotRiskier(edges: seq<PathEdge>, j: int, i: int)
    requires 0 <= i < |edges| && 0 <= j < |edges|
  {
    edges[j].risk <= edges[i].risk && (j < i ==> edges[j].risk < edges[i].risk)
  }

  function RiskiestOf(e: PathEdge, model: Model): Riskiest {
    Riskiest(Round3(e.risk), RiskLevel(e.risk, model), Round1(e.length), e.lat, e.lng, e.metrics)
  }

  ghost predicate IsRiskiest(riskiest: Option<Riskiest>, edges: seq<PathEdge>, model: Model) {
    if edges == [] then riskiest == None
    else exists i :: IsFirstRiskiest(edges, i) && riskiest == Some(RiskiestOf(edges[i], model))
  }

  function Percent(part: real, whole: real): real {
    if whole > 0.0 then 100.0 * part / whole else 0.0
  }

  /** What the route figures must be, given the sums of the path. */
  ghost predicate IsRouteOf(route: SafeRoute, kind: RouteKind, edges: seq<PathEdge>, model: Model) {
    var s := SumPath(edges, model.moderateMax);
    && route.kind == kind
    && route.distance == Round1(s.length) && route.duration == Round1(s.duration / 60.0)
    && route.riskScore == Round3(Blend(s)) && route.level == RiskLevel(Blend(s), model)
    && route.highRiskMeters == Round1(s.highMeters) && route.highRiskPercent == Round1(Percent(s.highMeters, s.length))
    && route.maxEdgeRisk == Round3(s.maxRisk) && route.avgEdgeRisk == Round3(Average(s))
    && route.metrics == s.metrics && route.dominant == DominantFactor(s.metrics)
    && route.armedShare == Round1(Percent(s.metrics.armed as real, s.metrics.crime as real))
    && route.segments == SegmentsOf(edges)
    && IsRiskiest(route.riskiest, edges, model)
    && route.extraDistance == 0.0 && route.extraDuration == 0.0 && route.riskReduction == 0.0 && route.timeOfDay == None
  }

  /** One pass over the path, as the service makes it; comparisons and time of day are filled in later. */
  method AggregateRoute(kind: RouteKind, edges: seq<PathEdge>, model: Model) returns (route: SafeRoute)
    ensures IsRouteOf(route, kind, edges, model)
  {
    var sums, segments, riskiestIdx := ScanPath(edges, model);
    route := SafeRoute(
      kind, Round1(sums.length), Round1(sums.duration / 60.0),
      Round3(Blend(sums)), RiskLevel(Blend(sums), model),
      Round1(sums.highMeters), Round1(Percent(sums.highMeters, sums.length)),
      Round3(sums.maxRisk), Round3(Average(sums)), sums.metrics,
      if riskiestIdx >= 0 then Some(RiskiestOf(edges[riskiestIdx], model)) else None,
      segments, DominantFactor(sums.metrics),
      Round1(Percent(sums.metrics.armed as real, sums.metrics.crime as real)),
      0.0, 0.0, 0.0, None);
  }

  method ScanPath(edges: seq<PathEdge>, model: Model) returns (sums: Sums, segments: seq<Segment>, riskiestIdx: int)
    ensures sums == SumPath(edges, model.moderateMax) && segments == SegmentsOf(edges)
    ensures if edges == [] then riskiestIdx == -1 else IsFirstRiskiest(edges, riskiestIdx)
  {
    sums, segments, riskiestIdx := NO_SUMS, [], -1;
    for i := 0 to |edges|
      invariant sums == SumPath(edges[..i], model.moderateMax)
      invariant segments == SegmentsOf(edges[..i])
      invariant if i == 0 then riskiestIdx == -1 else IsFirstRiskiest(edges[..i], riskiestIdx)
    {
      var e := edges[i];
      assert edges[..i + 1] == edges[..i] + [e];
      SumPathAppend(edges[..i], e, model.moderateMax);
      AddEdge(sums, e, model.moderateMax);
      RiskiestNext(edges[..i], e, riskiestIdx);
      sums := Sums(sums.length + e.length, sums.duration + e.duration, sums.weighted + e.length * e.risk,
                   Max(sums.maxRisk, e.risk),
                   if e.risk > model.moderateMax then sums.highMeters + e.length else sums.highMeters,
                   AddMetrics(sums.metrics, e.metrics));
      if riskiestIdx < 0 || e.risk > edges[riskiestIdx].risk {
        riskiestIdx := i;
      }
      segments := segments + [SegmentOf(e)];
    }
    assert edges[..|edges|] == edges;
  }

  lemma RiskiestNext(before: seq<PathEdge>, e: PathEdge, i: int)
    requires if before == [] then i == -1 else IsFirstRiskiest(before, i)
    ensures IsFirstRiskiest(before + [e], if i < 0 || e.risk > before[i].risk then |before| else i)
  {
    var k := if i < 0 || e.risk > before[i].risk then |before| else i;
    forall j | 0 <= j <= |before| ensures IsNotRiskier(before + [e], j, k) {
      if j < |before| { assert IsNotRiskier(before, j, i); }
    }
  }

  /** The loop's in-place updates add the edge's share, since the running maximum is never negative. */
  lemma AddEdge(s: Sums, e: PathEdge, highAbove: real)
    requires s.maxRisk >= 0.0
    ensures AddSums(s, SumsOf(e, highAbove)) ==
            Sums(s.length + e.length, s.duration + e.duration, s.weighted + e.length * e.risk, Max(s.maxRisk, e.risk),
                 if e.risk > highAbove then s.highMeters + e.length else s.highMeters, AddMetrics(s.metrics, e.metrics))
  {
  }

  // ---------- the figures in the terms of the edges ----------

  /** The figures of an edge that a route adds up. */
  datatype Figure = Length | Duration | Exposure | HighRisk(above: real)

  function FigureOf(e: PathEdge, figure: Figure): real {
    match figure
    case Length => e.length
    case Duration => e.duration
    case Exposure => e.length * e.risk
    case HighRisk(above) => if e.risk > above then e.length else 0.0
  }

  function FigureSum(edges: seq<PathEdge>, figure: Figure): real {
    if edges == [] then 0.0 else FigureSum(edges[..|edges| - 1], figure) + FigureOf(edges[|edges| - 1], figure)
  }

  datatype Count = Crimes | Robberies | Thefts | ThreatsMade | Armed | Riding | SameBucket

  function CountOf(m: Metrics, count: Count): int {
    match count
    case Crimes => m.crime
    case Robberies => m.robbery
    case Thefts => m.theft
    case ThreatsMade => m.threats
    case Armed => m.armed
    case Riding => m.motorcycle
    case SameBucket => m.sameBucket
  }

  function CountSum(edges: seq<PathEdge>, count: Count): int {
    if edges == [] then 0 else CountSum(edges[..|edges| - 1], count) + CountOf(edges[|edges| - 1].metrics, count)
  }

  /** Every total of a path is the sum of its edges' own figures and counts. */
  lemma {:induction false} SumsWrittenOut(edges: seq<PathEdge>, highAbove: real)
    ensures var s := SumPath(edges, highAbove);
            && s.length == FigureSum(edges, Length) && s.duration == FigureSum(edges, Duration)
            && s.weighted == FigureSum(edges, Exposure) && s.highMeters == FigureSum(edges, HighRisk(highAbove))
            && forall count :: CountOf(s.metrics, count) == CountSum(edges, count)
  {
    if edges == [] {
      forall count ensures CountOf(NO_METRICS, count) == 0 {}
    } else {
      var before, e := edges[..|edges| - 1], edges[|edges| - 1];
      SumsWrittenOut(before, highAbove);
      assert edges == before + [e];
      SumPathAppend(before, e, highAbove);
      var m := SumPath(before, highAbove).metrics;
      forall count ensures CountOf(AddMetrics(m, e.metrics), count) == CountSum(edges, count) {
        assert CountOf(m, count) == CountSum(before, count);
      }
    }
  }

  /** The worst edge of a path, at least zero. */
  ghost predicate IsWorstRisk(edges: seq<PathEdge>, worst: real) {
    && worst >= 0.0 && (forall e :: e in edges ==> e.risk <= worst)
    && (worst == 0.0 || exists e :: e in edges && e.risk == worst)
  }

  lemma {:induction false} WorstWrittenOut(edges: seq<PathEdge>, highAbove: real)
    ensures IsWorstRisk(edges, SumPath(edges, highAbove).maxRisk)
  {
    if edges != [] {
      var before, e := edges[..|edges| - 1], edges[|edges| - 1];
      WorstWrittenOut(before, highAbove);
      assert edges == before + [e] && e in edges;
      SumPathAppend(before, e, highAbove);
    }
  }

  /** The average weighs risk by length, and the score is three parts average and one part worst edge. */
  lemma BlendWrittenOut(s: Sums)
    ensures s.length > 0.0 ==> Average(s) * s.length == s.weighted
    ensures s.length <= 0.0 ==> Average(s) == 0.0
    ensures Blend(s) == (3.0 * Average(s) + s.maxRisk) / 4.0
  {
  }

  lemma LevelWrittenOut(score: real, model: Model)
    ensures RiskLevel(score, model) == Low <==> score <= model.lowMax
    ensures RiskLevel(score, model) == Moderate <==> model.lowMax < score <= model.moderateMax
    ensures RiskLevel(score, model) == High <==> model.lowMax < score && model.moderateMax < score
  {
  }

  /** The largest count on the route, robberies before thefts before threats among equals. */
  lemma FactorWrittenOut(m: Metrics)
    ensures DominantFactor(m) == NoFactor <==> m.robbery == m.theft == m.threats == 0
    ensures var any := !(m.robbery == m.theft == m.threats == 0);
            && (DominantFactor(m) == Robbery <==> any && m.robbery >= m.theft && m.robbery >= m.threats)
            && (DominantFactor(m) == Theft <==> any && m.theft > m.robbery && m.theft >= m.threats)
            && (DominantFactor(m) == Threats <==> any && m.threats > m.robbery && m.threats > m.theft)
  {
  }

  lemma PercentWrittenOut(part: real, whole: real)
    ensures whole > 0.0 ==> Percent(part, whole) * whole == 100.0 * part
    ensures whole <= 0.0 ==> Percent(part, whole) == 0.0
  {
  }

  /** The average, the worst edge and the score of a path, in the terms of its edges. */
  ghost predicate AreScores(edges: seq<PathEdge>, average: real, worst: real, score: real) {
    && IsAverage(FigureSum(edges, Length), FigureSum(edges, Exposure), average)
    && IsWorstRisk(edges, worst) && score == (3.0 * average + worst) / 4.0
  }

  predicate IsAverage(length: real, exposure: real, average: real) {
    if length > 0.0 then average * length == exposure else average == 0.0
  }

  lemma ScoresWrittenOut(edges: seq<PathEdge>, highAbove: real)
    ensures var s := SumPath(edges, highAbove); AreScores(edges, Average(s), s.maxRisk, Blend(s))
  {
    SumsWrittenOut(edges, highAbove);
    WorstWrittenOut(edges, highAbove);
    BlendWrittenOut(SumPath(edges, highAbove));
  }

  /** The scores of a reported route, in the terms of its edges. */
  lemma RouteWrittenOut(route: SafeRoute, kind: RouteKind, edges: seq<PathEdge>, model: Model)
    returns (average: real, worst: real, score: real)
    requires IsRouteOf(route, kind, edges, model)
    ensures route.kind == kind && AreScores(edges, average, worst, score)
    ensures route.riskScore == Round3(score) && route.avgEdgeRisk == Round3(average) && route.maxEdgeRisk == Round3(worst)
    ensures route.level == RiskLevel(score, model)
  {
    ScoresWrittenOut(edges, model.moderateMax);
    var s := SumPath(edges, model.moderateMax);
    average, worst, score := Average(s), s.maxRisk, Blend(s);
  }

  /** The totals of a reported route, in the terms of its edges. */
  lemma TotalsWrittenOut(route: SafeRoute, kind: RouteKind, edges: seq<PathEdge>, model: Model)
    requires IsRouteOf(route, kind, edges, model)
    ensures route.distance == Round1(FigureSum(edges, Length)) && route.duration == Round1(FigureSum(edges, Duration) / 60.0)
    ensures route.highRiskMeters == Round1(FigureSum(edges, HighRisk(model.moderateMax)))
    ensures route.highRiskPercent == Round1(Percent(FigureSum(edges, HighRisk(model.moderateMax)), FigureSum(edges, Length)))
    ensures forall count :: CountOf(route.metrics, count) == CountSum(edges, count)
    ensures route.armedShare == Round1(Percent(CountSum(edges, Armed) as real, CountSum(edges, Crimes) as real))
    ensures route.dominant == DominantFactor(route.metrics)
  {
    SumsWrittenOut(edges, model.moderateMax);
    var m := SumPath(edges, model.moderateMax).metrics;
    assert CountOf(m, Armed) == m.armed && CountOf(m, Crimes) == m.crime;
  }

  /** The segments and the riskiest edge of a reported route, field by field. */
  lemma SegmentsWrittenOut(route: SafeRoute, kind: RouteKind, edges: seq<PathEdge>, model: Model)
    requires IsRouteOf(route, kind, edges, model)
    ensures |route.segments| == |edges|
    ensures forall i :: 0 <= i < |edges| ==>
              route.segments[i] ==
              Segment(Round3(edges[i].risk), edges[i].metrics.robbery, Round1(edges[i].length), edges[i].lat, edges[i].lng)
    ensures if edges == [] then route.riskiest.None?
            else exists i :: IsFirstRiskiest(edges, i) &&
                   route.riskiest == Some(Riskiest(Round3(edges[i].risk), RiskLevel(edges[i].risk, model), Round1(edges[i].length),
                                                   edges[i].lat, edges[i].lng, edges[i].metrics))
  {
  }

  // ---------- bounds ----------

  /** Routable edges have positive length, and stored risks lie in [0, 1]. */
  ghost predicate IsStoredPath(edges: seq<PathEdge>) {
    forall e :: e in edges ==> e.length > 0.0 && 0.0 <= e.risk <= 1.0
  }

  lemma Scale(length: real, a: real, b: real)
    requires length >= 0.0 && a <= b
    ensures length * a <= length * b
  {
    assert length * (b - a) >= 0.0;
  }

  /** What holds of the sums of any stored path. */
  predicate AreBounded(s: Sums) {
    && 0.0 <= s.weighted <= s.length * s.maxRisk && 0.0 <= s.maxRisk <= 1.0
    && 0.0 <= s.highMeters <= s.length
  }

  lemma SumBounds(edges: seq<PathEdge>, highAbove: real)
    requires IsStoredPath(edges)
    ensures AreBounded(SumPath(edges, highAbove)) && (edges != [] ==> SumPath(edges, highAbove).length > 0.0)
  {
    forall i | 0 <= i < |edges| ensures AreBounded(SumsOf(edges[i], highAbove)) && edges[i].length > 0.0 {
      assert edges[i] in edges;
      Scale(edges[i].length, 0.0, edges[i].risk);
    }
    TotalBounds(SharesOf(edges, highAbove));
  }

  lemma {:induction false} TotalBounds(shares: seq<Sums>)
    requires forall i :: 0 <= i < |shares| ==> AreBounded(shares[i]) && shares[i].length > 0.0
    ensures AreBounded(Total(shares)) && (shares != [] ==> Total(shares).length > 0.0)
  {
    if shares != [] {
      TotalBounds(shares[..|shares| - 1]);
      AddBounded(Total(shares[..|shares| - 1]), shares[|shares| - 1]);
    }
  }

  lemma AddBounded(s: Sums, t: Sums)
    requires AreBounded(s) && AreBounded(t)
    ensures AreBounded(AddSums(s, t))
  {
    var m := Max(s.maxRisk, t.maxRisk);
    Scale(s.length, s.maxRisk, m);
    Scale(t.length, t.maxRisk, m);
    Distribute(s.length, t.length, m);
  }

  lemma Distribute(a: real, b: real, m: real)
    ensures (a + b) * m == a * m + b * m
  {
  }

  lemma Quotient(part: real, whole: real, bound: real)
    requires whole > 0.0 && 0.0 <= part <= whole * bound
    ensures 0.0 <= part / whole <= bound
  {
    assert (part / whole) * whole == part;
  }

  lemma BlendInside(s: Sums)
    requires AreBounded(s)
    ensures 0.0 <= Average(s) <= Blend(s) <= s.maxRisk
  {
    if s.length > 0.0 { Quotient(s.weighted, s.length, s.maxRisk); }
  }

  lemma RoundedBounds(average: real, blend: real, maxRisk: real)
    requires 0.0 <= average <= blend <= maxRisk <= 1.0
    ensures 0.0 <= Round3(average) <= Round3(blend) <= Round3(maxRisk) <= 1.0
  {
    RoundUnits();
    Round3Monotone(0.0, average);
    Round3Monotone(average, blend);
    Round3Monotone(blend, maxRisk);
    Round3Monotone(maxRisk, 1.0);
  }

  /** Average at most score at most worst edge, before and after rounding, all within [0, 1]. */
  lemma BlendBounds(route: SafeRoute, kind: RouteKind, edges: seq<PathEdge>, model: Model)
    requires IsStoredPath(edges) && IsRouteOf(route, kind, edges, model)
    ensures var s := SumPath(edges, model.moderateMax); 0.0 <= Average(s) <= Blend(s) <= s.maxRisk <= 1.0
    ensures 0.0 <= route.avgEdgeRisk <= route.riskScore <= route.maxEdgeRisk <= 1.0
    ensures 0.0 <= route.highRiskMeters <= route.distance
  {
    var s := SumPath(edges, model.moderateMax);
    SumBounds(edges, model.moderateMax);
    BlendInside(s);
    RoundedBounds(Average(s), Blend(s), s.maxRisk);
    RoundUnits();
    Round1Monotone(0.0, s.highMeters);
    Round1Monotone(s.highMeters, s.length);
  }

  lemma {:induction false} TotalMax(shares: seq<Sums>)
    requires forall i :: 0 <= i < |shares| ==> shares[i].maxRisk >= 0.0
    ensures forall i :: 0 <= i < |shares| ==> shares[i].maxRisk <= Total(shares).maxRisk
    ensures shares != [] ==> exists i :: 0 <= i < |shares| && shares[i].maxRisk == Total(shares).maxRisk
  {
    if shares != [] {
      var before := shares[..|shares| - 1];
      TotalMax(before);
      forall i | 0 <= i < |shares| ensures shares[i].maxRisk <= Total(shares).maxRisk {
        if i < |before| { assert before[i] == shares[i]; }
      }
      if before != [] {
        var i :| 0 <= i < |before| && before[i].maxRisk == Total(before).maxRisk;
        assert shares[i] == before[i];
      }
      assert shares[|shares| - 1].maxRisk == Total(shares).maxRisk || Total(before).maxRisk == Total(shares).maxRisk;
    }
  }

  lemma FirstRiskiestIsMax(edges: seq<PathEdge>, highAbove: real, i: int)
    requires IsStoredPath(edges) && IsFirstRiskiest(edges, i)
    ensures edges[i].risk == SumPath(edges, highAbove).maxRisk
  {
    var shares := SharesOf(edges, highAbove);
    forall j | 0 <= j < |edges| ensures shares[j].maxRisk == edges[j].risk <= edges[i].risk {
      assert edges[j] in edges && IsNotRiskier(edges, j, i);
    }
    TotalMax(shares);
  }

  /** The reported riskiest segment carries the reported maximum. */
  lemma RiskiestMatchesMax(route: SafeRoute, kind: RouteKind, edges: seq<PathEdge>, model: Model)
    requires IsStoredPath(edges) && edges != [] && IsRouteOf(route, kind, edges, model)
    ensures route.riskiest.Some? && route.riskiest.value.risk == route.maxEdgeRisk
  {
    RiskiestIsMax(route.riskiest, edges, model);
  }

  lemma RiskiestIsMax(riskiest: Option<Riskiest>, edges: seq<PathEdge>, model: Model)
    requires IsStoredPath(edges) && edges != [] && IsRiskiest(riskiest, edges, model)
    ensures riskiest.Some? && riskiest.value.risk == Round3(SumPath(edges, model.moderateMax).maxRisk)
  {
    var i :| IsFirstRiskiest(edges, i) && riskiest == Some(RiskiestOf(edges[i], model));
    FirstRiskiestIsMax(edges, model.moderateMax, i);
  }

  function SegmentLengths(segments: seq<Segment>): real {
    if segments == [] then 0.0 else SegmentLengths(segments[..|segments| - 1]) + segments[|segments| - 1].length
  }

  lemma {:induction false} SegmentLengthsNear(edges: seq<PathEdge>, highAbove: real)
    ensures -0.05 * |edges| as real <= SegmentLengths(SegmentsOf(edges)) - SumPath(edges, highAbove).length <= 0.05 * |edges| as real
  {
    if edges != [] {
      var before := edges[..|edges| - 1];
      SegmentLengthsNear(before, highAbove);
      assert SegmentsOf(edges)[..|edges| - 1] == SegmentsOf(before);
      assert edges == before + [edges[|edges| - 1]];
      SumPathAppend(before, edges[|edges| - 1], highAbove);
      Round1Near(edges[|edges| - 1].length);
    }
  }

  /** Segment lengths are rounded one by one: with n edges they miss the reported distance by at most 0.05 * (n + 1). */
  lemma SegmentsNearDistance(route: SafeRoute, kind: RouteKind, edges: seq<PathEdge>, model: Model)
    requires IsRouteOf(route, kind, edges, model)
    ensures -0.05 * (|edges| + 1) as real <= SegmentLengths(route.segments) - route.distance <= 0.05 * (|edges| + 1) as real
  {
    SegmentLengthsNear(edges, model.moderateMax);
    Round1Near(SumPath(edges, model.moderateMax).length);
  }

  // ---------- splitting an edge ----------

  /** Pieces of one edge: same risk, lengths and durations adding up. */
  ghost predicate ArePieces(e: PathEdge, pieces: seq<PathEdge>, highAbove: real) {
    && pieces != [] && (forall q :: q in pieces ==> q.risk == e.risk)
    && SumPath(pieces, highAbove).length == e.length && SumPath(pieces, highAbove).duration == e.duration
  }

  lemma {:induction false} PiecesSum(risk: real, pieces: seq<PathEdge>, highAbove: real)
    requires forall q :: q in pieces ==> q.risk == risk
    ensures var s := SumPath(pieces, highAbove);
            && s.weighted == s.length * risk && s.highMeters == (if risk > highAbove then s.length else 0.0)
            && (pieces != [] ==> s.maxRisk == Max(0.0, risk))
  {
    if pieces != [] {
      var before, q := pieces[..|pieces| - 1], pieces[|pieces| - 1];
      assert q in pieces && pieces == before + [q];
      PiecesSum(risk, before, highAbove);
      SumPathAppend(before, q, highAbove);
      Distribute(SumPath(before, highAbove).length, q.length, risk);
    }
  }

  /** All sums but the crime counts. */
  predicate SameFigures(s: Sums, t: Sums) {
    && s.length == t.length && s.duration == t.duration && s.weighted == t.weighted
    && s.maxRisk == t.maxRisk && s.highMeters == t.highMeters
  }

  lemma SplitSums(before: seq<PathEdge>, e: PathEdge, pieces: seq<PathEdge>, after: seq<PathEdge>, highAbove: real)
    requires ArePieces(e, pieces, highAbove)
    ensures SameFigures(SumPath(before + [e] + after, highAbove), SumPath(before + pieces + after, highAbove))
  {
    SumPathConcat(before + [e], after, highAbove);
    SumPathConcat(before, [e], highAbove);
    SumPathConcat(before + pieces, after, highAbove);
    SumPathConcat(before, pieces, highAbove);
    PiecesMatch(e, pieces, highAbove);
    SameFiguresAdd(SumPath(before, highAbove), SumPath([e], highAbove), SumPath(pieces, highAbove), SumPath(after, highAbove));
  }

  lemma PiecesMatch(e: PathEdge, pieces: seq<PathEdge>, highAbove: real)
    requires ArePieces(e, pieces, highAbove)
    ensures SameFigures(SumPath([e], highAbove), SumPath(pieces, highAbove))
  {
    PiecesSum(e.risk, pieces, highAbove);
    SumOne(e, highAbove);
  }

  lemma SameFiguresAdd(a: Sums, s: Sums, t: Sums, b: Sums)
    requires SameFigures(s, t)
    ensures SameFigures(AddSums(AddSums(a, s), b), AddSums(AddSums(a, t), b))
  {
  }

  lemma SumOne(e: PathEdge, highAbove: real)
    ensures SameFigures(SumPath([e], highAbove), SumsOf(e, highAbove))
  {
    assert [] + [e] == [e];
    SumPathAppend([], e, highAbove);
  }

  /** Recording a street as one edge or as several same-risk pieces changes no distance, duration or risk figure. */
  lemma SplitInvariant(whole: SafeRoute, split: SafeRoute, kind: RouteKind, before: seq<PathEdge>, e: PathEdge,
                       pieces: seq<PathEdge>, after: seq<PathEdge>, model: Model)
    requires ArePieces(e, pieces, model.moderateMax)
    requires IsRouteOf(whole, kind, before + [e] + after, model) && IsRouteOf(split, kind, before + pieces + after, model)
    ensures whole.distance == split.distance && whole.duration == split.duration
    ensures whole.avgEdgeRisk == split.avgEdgeRisk && whole.maxEdgeRisk == split.maxEdgeRisk
    ensures whole.riskScore == split.riskScore && whole.level == split.level
    ensures whole.highRiskMeters == split.highRiskMeters && whole.highRiskPercent == split.highRiskPercent
  {
    SplitSums(before, e, pieces, after, model.moderateMax);
    SameFiguresSameRoute(SumPath(before + [e] + after, model.moderateMax), SumPath(before + pieces + after, model.moderateMax), model);
  }

  lemma SameFiguresSameRoute(s: Sums, t: Sums, model: Model)
    requires SameFigures(s, t)
    ensures Average(s) == Average(t) && Blend(s) == Blend(t)
    ensures Percent(s.highMeters, s.length) == Percent(t.highMeters, t.length)
  {
  }

  // ---------- comparisons with the fastest route ----------

  function SetComparisons(route: SafeRoute, fastest: SafeRoute): SafeRoute {
    route.(extraDistance := Round1(route.distance - fastest.distance),
           extraDuration := Round1(route.duration - fastest.duration),
           riskReduction := if fastest.riskScore > 0.0
                            then Round1(100.0 * (fastest.riskScore - route.riskScore) / fastest.riskScore)
                            else route.riskReduction)
  }

  /** The comparisons, field by field; nothing else of the route changes. */
  lemma ComparisonsWrittenOut(route: SafeRoute, fastest: SafeRoute)
    ensures var out := SetComparisons(route, fastest);
            && out.extraDistance == Round1(route.distance - fastest.distance)
            && out.extraDuration == Round1(route.duration - fastest.duration)
            && (fastest.riskScore > 0.0 ==>
                  out.riskReduction == Round1(100.0 * (fastest.riskScore - route.riskScore) / fastest.riskScore))
            && (fastest.riskScore <= 0.0 ==> out.riskReduction == route.riskReduction)
            && out.(extraDistance := route.extraDistance, extraDuration := route.extraDuration,
                    riskReduction := route.riskReduction) == route
  {
  }

  /** The fastest route compares as zero with itself; a longer route shows no negative detour and a
  route no riskier than the fastest shows no negative reduction, never above 100 percent. */
  lemma ComparisonSigns(route: SafeRoute, fastest: SafeRoute)
    requires route.riskReduction == 0.0 && route.riskScore >= 0.0
    ensures route.distance == fastest.distance ==> SetComparisons(route, fastest).extraDistance == 0.0
    ensures route.duration == fastest.duration ==> SetComparisons(route, fastest).extraDuration == 0.0
    ensures route.riskScore == fastest.riskScore ==> SetComparisons(route, fastest).riskReduction == 0.0
    ensures route.distance >= fastest.distance ==> SetComparisons(route, fastest).extraDistance >= 0.0
    ensures route.duration >= fastest.duration ==> SetComparisons(route, fastest).extraDuration >= 0.0
    ensures route.duration <= fastest.duration ==> SetComparisons(route, fastest).extraDuration <= 0.0
    ensures 0.0 < fastest.riskScore && route.riskScore <= fastest.riskScore ==>
              0.0 <= SetComparisons(route, fastest).riskReduction <= 100.0
    ensures fastest.riskScore < route.riskScore ==> SetComparisons(route, fastest).riskReduction <= 0.0
  {
    RoundUnits();
    RoundWhole(1000);
    if route.distance >= fastest.distance { Round1Monotone(0.0, route.distance - fastest.distance); }
    if route.duration >= fastest.duration {
      Round1Monotone(0.0, route.duration - fastest.duration);
    } else {
      Round1Monotone(route.duration - fastest.duration, 0.0);
    }
    if fastest.riskScore > 0.0 {
      var change := 100.0 * (fastest.riskScore - route.riskScore) / fastest.riskScore;
      assert change * fastest.riskScore == 100.0 * (fastest.riskScore - route.riskScore);
      if route.riskScore <= fastest.riskScore {
        Quotient(100.0 * (fastest.riskScore - route.riskScore), fastest.riskScore, 100.0);
        Round1Monotone(0.0, change);
        Round1Monotone(change, 100.0);
      } else {
        Round1Monotone(change, 0.0);
      }
    }
  }
}
