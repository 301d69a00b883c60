/** Risk-weighted routing: what a larger safety multiplier buys and what it costs.

The routing engine is taken by its contract: the path it returns is a walk of
minimal cost. Edge cost is length * (1 + m * risk) for a positive multiplier m
and plain length otherwise. */
module RouteTradeoff {
  import opened Options
  import opened RoadGraph
  import opened Rounding
  import opened RouteAggregation

  // ---------- costs and the engine's contract ----------

  /** COALESCE(risk_score, 0) for the request's model and context. */
  function RiskOf(risk: map<int, real>, e: EdgeRow): real {
    if e.id in risk then risk[e.id] else 0.0
  }

  function EdgeCost(risk: map<int, real>, m: real, e: EdgeRow): real {
    if m > 0.0 then e.length * (1.0 + m * RiskOf(risk, e)) else e.length
  }

  function WalkCost(risk: map<int, real>, m: real, w: seq<EdgeRow>): real {
    if w == [] then 0.0 else WalkCost(risk, m, w[..|w| - 1]) + EdgeCost(risk, m, w[|w| - 1])
  }

  /** Sum of length times risk: the exposure of a walk. */
  function Exposure(risk: map<int, real>, w: seq<EdgeRow>): real {
    if w == [] then 0.0 else Exposure(risk, w[..|w| - 1]) + w[|w| - 1].length * RiskOf(risk, w[|w| - 1])
  }

  ghost predicate IsCheapestWalk(rows: seq<EdgeRow>, risk: map<int, real>, m: real, a: int, b: int, w: seq<EdgeRow>) {
    IsWalk(rows, a, w, b) && forall other :: IsWalk(rows, a, other, b) ==> WalkCost(risk, m, w) <= WalkCost(risk, m, other)
  }

  /** The returned path edges carry the length and risk of the walk's edges, in order. */
  ghost predicate IsEnrichment(risk: map<int, real>, w: seq<EdgeRow>, path: seq<PathEdge>) {
    |path| == |w| && forall i :: 0 <= i < |w| ==>
      path[i].id == w[i].id && path[i].length == w[i].length && path[i].risk == RiskOf(risk, w[i])
  }

  /** A multiplier that is not positive routes by plain distance, as zero does. */
  function Effective(m: real): real {
    if m > 0.0 then m else 0.0
  }

  lemma {:induction false} CostIsLengthPlusExposure(risk: map<int, real>, m: real, w: seq<EdgeRow>)
    ensures WalkCost(risk, m, w) == WalkLength(w) + Effective(m) * Exposure(risk, w)
  {
    if w != [] {
      var before, e := w[..|w| - 1], w[|w| - 1];
      CostIsLengthPlusExposure(risk, m, before);
      SplitProduct(e.length, Effective(m), RiskOf(risk, e), Exposure(risk, before));
    }
  }

  lemma SplitProduct(length: real, m: real, r: real, x: real)
    ensures length * (1.0 + m * r) == length + m * (length * r)
    ensures m * x + m * (length * r) == m * (x + length * r)
  {
  }

  // ---------- the trade-off ----------

  /** Length l1 with exposure r1 costs no more under multiplier m than length l2 with exposure r2. */
  predicate NotDearer(l1: real, r1: real, l2: real, r2: real, m: real) {
    l1 + m * r1 <= l2 + m * r2
  }

  /** The longest a route with multiplier m may be, given the shortest length. */
  function DetourLimit(m: real, shortest: real): real {
    (1.0 + m) * shortest
  }

  /** Two optima of len + m * risk compared: the larger multiplier walks farther and is exposed less. */
  lemma Exchange(l1: real, r1: real, l2: real, r2: real, m1: real, m2: real)
    requires 0.0 <= m1 < m2
    requires NotDearer(l1, r1, l2, r2, m1) && NotDearer(l2, r2, l1, r1, m2)
    ensures r2 <= r1 && l1 <= l2
  {
    assert (m2 - m1) * (r2 - r1) <= 0.0;
    assert r2 > r1 ==> (m2 - m1) * (r2 - r1) > 0.0;
    assert m1 * (r1 - r2) >= 0.0;
  }

  lemma CheapestInFigures(rows: seq<EdgeRow>, risk: map<int, real>, m: real, a: int, b: int, w: seq<EdgeRow>, other: seq<EdgeRow>)
    requires IsCheapestWalk(rows, risk, m, a, b, w) && IsWalk(rows, a, other, b)
    ensures NotDearer(WalkLength(w), Exposure(risk, w), WalkLength(other), Exposure(risk, other), Effective(m))
  {
    CostIsLengthPlusExposure(risk, m, w);
    CostIsLengthPlusExposure(risk, m, other);
  }

  /** With a larger effective multiplier the cheapest walk is at least as long and its exposure no larger. */
  lemma LargerMultiplierTradesLengthForRisk(rows: seq<EdgeRow>, risk: map<int, real>, a: int, b: int,
                                            m1: real, w1: seq<EdgeRow>, m2: real, w2: seq<EdgeRow>)
    requires Effective(m1) < Effective(m2)
    requires IsCheapestWalk(rows, risk, m1, a, b, w1) && IsCheapestWalk(rows, risk, m2, a, b, w2)
    ensures WalkLength(w1) <= WalkLength(w2) && Exposure(risk, w2) <= Exposure(risk, w1)
  {
    CheapestInFigures(rows, risk, m1, a, b, w1, w2);
    CheapestInFigures(rows, risk, m2, a, b, w2, w1);
    Exchange(WalkLength(w1), Exposure(risk, w1), WalkLength(w2), Exposure(risk, w2), Effective(m1), Effective(m2));
  }

  /** Risks stored in edge_risk_scores are checked to lie in [0, 1], and a missing one reads as 0. */
  ghost predicate UnitRisks(rows: seq<EdgeRow>, risk: map<int, real>) {
    forall e :: e in rows ==> 0.0 <= RiskOf(risk, e) <= 1.0
  }

  lemma {:induction false} ExposureBounds(rows: seq<EdgeRow>, risk: map<int, real>, a: int, w: seq<EdgeRow>, b: int)
    requires NonNegative(rows) && UnitRisks(rows, risk) && IsWalk(rows, a, w, b)
    ensures 0.0 <= Exposure(risk, w) <= WalkLength(w)
  {
    if w != [] {
      var before, e := w[..|w| - 1], w[|w| - 1];
      var c := if e.to == b && IsWalk(rows, a, before, e.from) then e.from else e.to;
      ExposureBounds(rows, risk, a, before, c);
      Scale(e.length, 0.0, RiskOf(risk, e));
      Scale(e.length, RiskOf(risk, e), 1.0);
    }
  }

  /** Routing with multiplier m never walks more than (1 + m) times the shortest length. */
  lemma DetourBound(rows: seq<EdgeRow>, risk: map<int, real>, a: int, b: int, m: real, w: seq<EdgeRow>, shortest: seq<EdgeRow>)
    requires NonNegative(rows) && UnitRisks(rows, risk)
    requires IsCheapestWalk(rows, risk, m, a, b, w) && IsWalk(rows, a, shortest, b)
    ensures WalkLength(w) <= DetourLimit(Effective(m), WalkLength(shortest))
  {
    CheapestInFigures(rows, risk, m, a, b, w, shortest);
    ExposureBounds(rows, risk, a, w, b);
    ExposureBounds(rows, risk, a, shortest, b);
    DetourFigures(WalkLength(w), Exposure(risk, w), WalkLength(shortest), Exposure(risk, shortest), Effective(m));
  }

  lemma DetourFigures(l1: real, r1: real, l2: real, r2: real, m: real)
    requires m >= 0.0 && r1 >= 0.0 && r2 <= l2 && NotDearer(l1, r1, l2, r2, m)
    ensures l1 <= DetourLimit(m, l2)
  {
    Scale(m, 0.0, r1);
    Scale(m, r2, l2);
    Distribute(1.0, m, l2);
  }

  // ---------- the same, in the reported figures ----------

  lemma {:induction false} PathFigures(risk: map<int, real>, w: seq<EdgeRow>, path: seq<PathEdge>, highAbove: real)
    requires IsEnrichment(risk, w, path)
    ensures SumPath(path, highAbove).length == WalkLength(w) && SumPath(path, highAbove).weighted == Exposure(risk, w)
    decreases |w|
  {
    if w != [] {
      var before, last := path[..|w| - 1], path[|w| - 1];
      PathFigures(risk, w[..|w| - 1], before, highAbove);
      assert path == before + [last];
      SumPathAppend(before, last, highAbove);
    }
  }

  lemma AverageFalls(s1: Sums, s2: Sums)
    requires 0.0 <= s2.weighted <= s1.weighted <= s1.length <= s2.length
    ensures Average(s2) <= Average(s1)
  {
    if s2.length > 0.0 {
      if s1.length > 0.0 {
        QuotientFalls(s1.weighted, s1.length, s2.weighted, s2.length);
      }
    }
  }

  lemma QuotientFalls(w1: real, l1: real, w2: real, l2: real)
    requires 0.0 <= w2 <= w1 && 0.0 < l1 <= l2
    ensures w2 / l2 <= w1 / l1
  {
    var q := w1 / l1;
    assert q * l1 == w1 && q >= 0.0;
    Scale(q, l1, l2);
    assert w2 <= q * l2;
    var p := w2 / l2;
    assert p * l2 == w2;
    assert p > q ==> (p - q) * l2 > 0.0;
  }

  /** Of two returned paths the one with the larger effective multiplier is no shorter and has no larger average risk. */
  lemma PathsTrade(rows: seq<EdgeRow>, risk: map<int, real>, a: int, b: int, highAbove: real,
                   m1: real, w1: seq<EdgeRow>, p1: seq<PathEdge>, m2: real, w2: seq<EdgeRow>, p2: seq<PathEdge>)
    requires NonNegative(rows) && UnitRisks(rows, risk) && Effective(m1) < Effective(m2)
    requires IsCheapestWalk(rows, risk, m1, a, b, w1) && IsEnrichment(risk, w1, p1)
    requires IsCheapestWalk(rows, risk, m2, a, b, w2) && IsEnrichment(risk, w2, p2)
    ensures SumPath(p1, highAbove).length <= SumPath(p2, highAbove).length
    ensures Average(SumPath(p2, highAbove)) <= Average(SumPath(p1, highAbove))
  {
    LargerMultiplierTradesLengthForRisk(rows, risk, a, b, m1, w1, m2, w2);
    ExposureBounds(rows, risk, a, w1, b);
    ExposureBounds(rows, risk, a, w2, b);
    PathFigures(risk, w1, p1, highAbove);
    PathFigures(risk, w2, p2, highAbove);
    AverageFalls(SumPath(p1, highAbove), SumPath(p2, highAbove));
  }

  /** What two returned routes report: distance does not fall and average risk does not rise with the multiplier. */
  lemma ReportedTradeoff(rows: seq<EdgeRow>, risk: map<int, real>, a: int, b: int, model: Model,
                         m1: real, w1: seq<EdgeRow>, p1: seq<PathEdge>, kind1: RouteKind, route1: SafeRoute,
                         m2: real, w2: seq<EdgeRow>, p2: seq<PathEdge>, kind2: RouteKind, route2: SafeRoute)
    requires NonNegative(rows) && UnitRisks(rows, risk) && Effective(m1) < Effective(m2)
    requires IsCheapestWalk(rows, risk, m1, a, b, w1) && IsEnrichment(risk, w1, p1) && IsRouteOf(route1, kind1, p1, model)
    requires IsCheapestWalk(rows, risk, m2, a, b, w2) && IsEnrichment(risk, w2, p2) && IsRouteOf(route2, kind2, p2, model)
    ensures route1.distance <= route2.distance && route2.avgEdgeRisk <= route1.avgEdgeRisk
  {
    PathsTrade(rows, risk, a, b, model.moderateMax, m1, w1, p1, m2, w2, p2);
    var s1, s2 := SumPath(p1, model.moderateMax), SumPath(p2, model.moderateMax);
    Round1Monotone(s1.length, s2.length);
    Round3Monotone(Average(s2), Average(s1));
  }

  // ---------- exactly when it holds ----------

  ghost predicate TradesOn(m1: real, m2: real, rows: seq<EdgeRow>, risk: map<int, real>, a: int, b: int,
                           w1: seq<EdgeRow>, w2: seq<EdgeRow>) {
    IsCheapestWalk(rows, risk, m1, a, b, w1) && IsCheapestWalk(rows, risk, m2, a, b, w2) ==>
      WalkLength(w1) <= WalkLength(w2) && Exposure(risk, w2) <= Exposure(risk, w1)
  }

  ghost predicate AlwaysTrades(m1: real, m2: real) {
    forall rows, risk, a, b, w1, w2 :: TradesOn(m1, m2, rows, risk, a, b, w1, w2)
  }

  /** For m1 < m2 the trade-off is guaranteed exactly when m2 is positive: below that both multipliers
  route by plain distance and a tie may be broken towards the riskier street. */
  lemma TradeoffExactly(m1: real, m2: real)
    requires m1 < m2
    ensures AlwaysTrades(m1, m2) <==> m2 > 0.0
  {
    if m2 > 0.0 {
      forall rows, risk, a, b, w1, w2 ensures TradesOn(m1, m2, rows, risk, a, b, w1, w2) {
        if IsCheapestWalk(rows, risk, m1, a, b, w1) && IsCheapestWalk(rows, risk, m2, a, b, w2) {
          LargerMultiplierTradesLengthForRisk(rows, risk, a, b, m1, w1, m2, w2);
        }
      }
    } else {
      var calm, risky := EdgeRow(1, 0, 1, 1.0), EdgeRow(2, 0, 1, 1.0);
      TieBreaksTowardsRisk(m1, m2, calm, risky);
    }
  }

  ghost predicate IsPotential(rows: seq<EdgeRow>, risk: map<int, real>, m: real, potential: map<int, real>) {
    forall e :: e in rows ==>
      && e.from in potential && e.to in potential
      && -EdgeCost(risk, m, e) <= potential[e.to] - potential[e.from] <= EdgeCost(risk, m, e)
  }

  /** A potential that no edge outpaces bounds the cost of every walk from below. */
  lemma {:induction false} PotentialBound(rows: seq<EdgeRow>, risk: map<int, real>, m: real, potential: map<int, real>,
                                          a: int, w: seq<EdgeRow>, b: int)
    requires IsPotential(rows, risk, m, potential)
    requires a in potential && IsWalk(rows, a, w, b)
    ensures b in potential && potential[b] - potential[a] <= WalkCost(risk, m, w)
  {
    if w != [] {
      var before, e := w[..|w| - 1], w[|w| - 1];
      var c := if e.to == b && IsWalk(rows, a, before, e.from) then e.from else e.to;
      PotentialBound(rows, risk, m, potential, a, before, c);
    }
  }

  /** A walk whose cost equals the potential difference is cheapest. */
  lemma CheapestByPotential(rows: seq<EdgeRow>, risk: map<int, real>, m: real, potential: map<int, real>,
                            a: int, w: seq<EdgeRow>, b: int)
    requires IsPotential(rows, risk, m, potential)
    requires a in potential && b in potential && IsWalk(rows, a, w, b)
    requires WalkCost(risk, m, w) == potential[b] - potential[a]
    ensures IsCheapestWalk(rows, risk, m, a, b, w)
  {
    forall other | IsWalk(rows, a, other, b) ensures WalkCost(risk, m, w) <= WalkCost(risk, m, other) {
      PotentialBound(rows, risk, m, potential, a, other, b);
    }
  }

  lemma OneEdgeWalk(rows: seq<EdgeRow>, risk: map<int, real>, m: real, e: EdgeRow)
    requires e in rows
    ensures IsWalk(rows, e.from, [e], e.to)
    ensures WalkLength([e]) == e.length && WalkCost(risk, m, [e]) == EdgeCost(risk, m, e)
    ensures Exposure(risk, [e]) == e.length * RiskOf(risk, e)
  {
    assert [e][..0] == [];
    assert IsWalk(rows, e.from, [], e.from);
  }

  lemma TieBreaksTowardsRisk(m1: real, m2: real, calm: EdgeRow, risky: EdgeRow)
    requires m1 < m2 <= 0.0 && calm == EdgeRow(1, 0, 1, 1.0) && risky == EdgeRow(2, 0, 1, 1.0)
    ensures !AlwaysTrades(m1, m2)
  {
    var rows, risk, potential := [calm, risky], map[2 := 1.0], map[0 := 0.0, 1 := 1.0];
    OneEdgeWalk(rows, risk, m1, calm);
    OneEdgeWalk(rows, risk, m2, risky);
    CheapestByPotential(rows, risk, m1, potential, 0, [calm], 1);
    CheapestByPotential(rows, risk, m2, potential, 0, [risky], 1);
    OneEdgeWalk(rows, risk, m2, calm);
    assert !TradesOn(m1, m2, rows, risk, 0, 1, [calm], [risky]);
  }

  /** The reported score itself may rise with the multiplier: a long street of risk 0.1 is traded for a
  riskless one ending in one metre of risk 1, and the worst edge outweighs the better average. */
  lemma SafestCanScoreHigher()
    returns (rows: seq<EdgeRow>, risk: map<int, real>, fast: seq<EdgeRow>, safe: seq<EdgeRow>, pf: seq<PathEdge>, ps: seq<PathEdge>)
    ensures NonNegative(rows) && UnitRisks(rows, risk)
    ensures IsCheapestWalk(rows, risk, 0.0, 0, 1, fast) && IsCheapestWalk(rows, risk, 3.0, 0, 1, safe)
    ensures IsEnrichment(risk, fast, pf) && IsEnrichment(risk, safe, ps)
    ensures Blend(SumPath(ps, 0.66)) > Blend(SumPath(pf, 0.66))
  {
    var direct, detour, corner := EdgeRow(1, 0, 1, 100.0), EdgeRow(2, 0, 2, 100.0), EdgeRow(3, 2, 1, 1.0);
    rows, risk := [direct, detour, corner], map[1 := 0.1, 3 := 1.0];
    fast, safe := [direct], [detour] + [corner];
    OneEdgeWalk(rows, risk, 0.0, direct);
    CheapestByPotential(rows, risk, 0.0, map[0 := 0.0, 1 := 100.0, 2 := 100.0], 0, fast, 1);
    OneEdgeWalk(rows, risk, 3.0, detour);
    ExtendWalk(rows, 0, [detour], 2, corner, 1);
    assert safe[..1] == [detour];
    CheapestByPotential(rows, risk, 3.0, map[0 := 0.0, 1 := 104.0, 2 := 100.0], 0, safe, 1);
    var none := NO_METRICS;
    pf := [PathEdge(1, 100.0, 80.0, 0.1, none, 0.0, 0.0)];
    ps := [PathEdge(2, 100.0, 80.0, 0.0, none, 0.0, 0.0)] + [PathEdge(3, 1.0, 1.0, 1.0, none, 0.0, 0.0)];
    SumOne(pf[0], 0.66);
    SumOne(ps[0], 0.66);
    SumPathAppend([ps[0]], ps[1], 0.66);
    assert [ps[0]] + [ps[1]] == ps && [pf[0]] == pf;
    assert Blend(SumPath(pf, 0.66)) == 0.1;
  }

  // ---------- exactly when the score cannot rise ----------

  ghost predicate PositiveLengths(rows: seq<EdgeRow>) {
    forall e :: e in rows ==> e.length > 0.0
  }

  /** Every edge carries a risk out of the given values. */
  ghost predicate CarriesOnly(rows: seq<EdgeRow>, risk: map<int, real>, values: iset<real>) {
    forall e :: e in rows ==> RiskOf(risk, e) in values
  }

  ghost predicate AtMostOne(values: iset<real>) {
    forall x, y :: x in values && y in values ==> x == y
  }

  ghost predicate AtMostTwo(values: iset<real>) {
    forall x, y, z :: x in values && y in values && z in values ==> !(x < y < z)
  }

  ghost predicate UnitValues(values: iset<real>) {
    forall x :: x in values ==> 0.0 <= x <= 1.0
  }

  /** The engine's answers for two multipliers between the same nodes of a graph with the given risk values. */
  ghost predicate AreAnswers(values: iset<real>, rows: seq<EdgeRow>, risk: map<int, real>, a: int, b: int,
                             m1: real, w1: seq<EdgeRow>, p1: seq<PathEdge>, m2: real, w2: seq<EdgeRow>, p2: seq<PathEdge>) {
    && PositiveLengths(rows) && CarriesOnly(rows, risk, values)
    && IsCheapestWalk(rows, risk, m1, a, b, w1) && IsEnrichment(risk, w1, p1)
    && IsCheapestWalk(rows, risk, m2, a, b, w2) && IsEnrichment(risk, w2, p2)
  }

  function Score(path: seq<PathEdge>, highAbove: real): real {
    Blend(SumPath(path, highAbove))
  }

  ghost predicate ScoreNeverRises(values: iset<real>, m1: real, m2: real, highAbove: real) {
    forall rows, risk, a, b, w1, p1, w2, p2 :: AreAnswers(values, rows, risk, a, b, m1, w1, p1, m2, w2, p2) ==>
      Score(p2, highAbove) <= Score(p1, highAbove)
  }

  /** For m1 < m2 the blended score cannot rise on any graph exactly when the edges carry at most two different
  risks; when m2 is not positive either, both routes go by plain distance and one risk is all that may occur. */
  lemma ScoreNeverRisesExactly(values: iset<real>, m1: real, m2: real, highAbove: real)
    requires m1 < m2 && UnitValues(values)
    ensures ScoreNeverRises(values, m1, m2, highAbove) <==> if m2 > 0.0 then AtMostTwo(values) else AtMostOne(values)
  {
    if if m2 > 0.0 then AtMostTwo(values) else AtMostOne(values) {
      forall rows, risk, a, b, w1, p1, w2, p2 | AreAnswers(values, rows, risk, a, b, m1, w1, p1, m2, w2, p2)
        ensures Score(p2, highAbove) <= Score(p1, highAbove)
      {
        ScoreFalls(values, rows, risk, a, b, m1, w1, p1, m2, w2, p2, highAbove);
      }
    } else if m2 > 0.0 {
      var x, y, z :| x in values && y in values && z in values && x < y < z;
      ThirdRiskRaisesScore(values, m1, m2, highAbove, x, y, z);
    } else {
      var x, y :| x in values && y in values && x != y;
      TieRaisesScore(values, m1, m2, highAbove, if x < y then x else y, if x < y then y else x);
    }
  }

  // The score does not rise.

  lemma {:induction false} WalkUsesRows(rows: seq<EdgeRow>, a: int, w: seq<EdgeRow>, b: int)
    requires IsWalk(rows, a, w, b)
    ensures forall i :: 0 <= i < |w| ==> w[i] in rows
  {
    if w != [] {
      var e, before := w[|w| - 1], w[..|w| - 1];
      WalkUsesRows(rows, a, before, if e.to == b && IsWalk(rows, a, before, e.from) then e.from else e.to);
      assert forall i :: 0 <= i < |before| ==> w[i] == before[i];
    }
  }

  /** The path has positive lengths, and its risks are among the values. */
  ghost predicate IsPathOver(path: seq<PathEdge>, values: iset<real>) {
    forall e :: e in path ==> e.length > 0.0 && e.risk in values
  }

  lemma AnswerIsPathOver(values: iset<real>, rows: seq<EdgeRow>, risk: map<int, real>, a: int, b: int,
                         w: seq<EdgeRow>, path: seq<PathEdge>)
    requires PositiveLengths(rows) && CarriesOnly(rows, risk, values) && IsWalk(rows, a, w, b) && IsEnrichment(risk, w, path)
    ensures IsPathOver(path, values)
  {
    WalkUsesRows(rows, a, w, b);
    forall e | e in path ensures e.length > 0.0 && e.risk in values {
      var i :| 0 <= i < |path| && path[i] == e;
      assert w[i] in rows;
    }
  }

  /** A cheapest walk is empty only where every cheapest walk is. */
  lemma EmptyTogether(rows: seq<EdgeRow>, risk: map<int, real>, a: int, b: int, m1: real, m2: real, w: seq<EdgeRow>)
    requires PositiveLengths(rows) && UnitRisks(rows, risk)
    requires IsCheapestWalk(rows, risk, m1, a, b, []) && IsCheapestWalk(rows, risk, m2, a, b, w)
    ensures w == []
  {
    CheapestInFigures(rows, risk, m2, a, b, w, []);
    ExposureBounds(rows, risk, a, w, b);
    Scale(Effective(m2), 0.0, Exposure(risk, w));
    if w != [] {
      var e, before := w[|w| - 1], w[..|w| - 1];
      WalkLengthNonNegative(rows, a, before, if e.to == b && IsWalk(rows, a, before, e.from) then e.from else e.to);
    }
  }

  /** A length with an exposure that averages at least low, or more than low. */
  predicate NotBelow(length: real, weighted: real, low: real) {
    low * length <= weighted
  }

  predicate Over(length: real, weighted: real, low: real) {
    low * length < weighted
  }

  ghost predicate HasAbove(path: seq<PathEdge>, low: real) {
    exists e :: e in path && e.risk > low
  }

  ghost predicate AllFrom(path: seq<PathEdge>, low: real) {
    forall e :: e in path ==> e.length > 0.0 && e.risk >= low
  }

  /** Risks of at least low average at least low, and above it once one of them is above. */
  lemma {:induction false} WeightedAbove(path: seq<PathEdge>, low: real, highAbove: real)
    requires AllFrom(path, low)
    ensures NotBelow(SumPath(path, highAbove).length, SumPath(path, highAbove).weighted, low)
    ensures HasAbove(path, low) ==> Over(SumPath(path, highAbove).length, SumPath(path, highAbove).weighted, low)
  {
    if path == [] {
      NothingIsNotBelow(low);
    } else {
      var before, e := path[..|path| - 1], path[|path| - 1];
      assert e in path && path == before + [e];
      WeightedAbove(before, low, highAbove);
      assert HasAbove(path, low) ==> HasAbove(before, low) || e.risk > low;
      OneMoreAbove(before, e, low, highAbove);
    }
  }

  lemma OneMoreAbove(before: seq<PathEdge>, e: PathEdge, low: real, highAbove: real)
    requires e.length > 0.0 && e.risk >= low
    requires NotBelow(SumPath(before, highAbove).length, SumPath(before, highAbove).weighted, low)
    ensures var s, t := SumPath(before, highAbove), SumPath(before + [e], highAbove);
            NotBelow(t.length, t.weighted, low) && (Over(s.length, s.weighted, low) || e.risk > low ==> Over(t.length, t.weighted, low))
  {
    var s, t := SumPath(before, highAbove), SumPath(before + [e], highAbove);
    NextEdge(before, e, highAbove);
    EdgeAbove(s.length, s.weighted, e.length, e.risk, low);
  }

  lemma NextEdge(before: seq<PathEdge>, e: PathEdge, highAbove: real)
    ensures SumPath(before + [e], highAbove).length == SumPath(before, highAbove).length + e.length
    ensures SumPath(before + [e], highAbove).weighted == SumPath(before, highAbove).weighted + e.length * e.risk
  {
    SumPathAppend(before, e, highAbove);
  }

  lemma NothingIsNotBelow(low: real)
    ensures NotBelow(0.0, 0.0, low)
  {
  }

  lemma EdgeAbove(length: real, weighted: real, more: real, risk: real, low: real)
    requires NotBelow(length, weighted, low) && more > 0.0 && risk >= low
    ensures NotBelow(length + more, weighted + more * risk, low)
    ensures Over(length, weighted, low) || risk > low ==> Over(length + more, weighted + more * risk, low)
  {
    Distribute(length, more, low);
    assert risk > low ==> more * (risk - low) > 0.0;
    Scale(more, low, risk);
  }

  lemma AverageAbove(s: Sums, low: real)
    requires s.length > 0.0 && Over(s.length, s.weighted, low)
    ensures Average(s) > low
  {
    var q := s.weighted / s.length;
    assert q * s.length == s.weighted;
    assert q <= low ==> (low - q) * s.length >= 0.0;
  }

  /** With at most two risks, a path whose average is no higher has no worse worst edge: all edges of a path that
  avoids the higher risk carry the lower one. */
  lemma WorstEdgeFollowsAverage(values: iset<real>, p1: seq<PathEdge>, p2: seq<PathEdge>, highAbove: real)
    requires AtMostTwo(values) && UnitValues(values) && IsPathOver(p1, values) && IsPathOver(p2, values) && p1 != []
    requires Average(SumPath(p2, highAbove)) <= Average(SumPath(p1, highAbove))
    ensures SumPath(p2, highAbove).maxRisk <= SumPath(p1, highAbove).maxRisk
  {
    var s1, s2 := SumPath(p1, highAbove), SumPath(p2, highAbove);
    SumBounds(p1, highAbove);
    SumBounds(p2, highAbove);
    if s1.maxRisk < s2.maxRisk {
      var e1 := WorstEdge(p1, highAbove);
      assert p2 != [];
      var e2 := WorstEdge(p2, highAbove);
      forall e | e in p2 ensures e.risk >= e1.risk {
        assert !(e.risk < e1.risk < e2.risk);
      }
      assert AllFrom(p2, e1.risk) && HasAbove(p2, e1.risk);
      WeightedAbove(p2, e1.risk, highAbove);
      AverageAbove(s2, e1.risk);
      BlendInside(s1);
      assert false;
    }
  }

  lemma WorstEdge(path: seq<PathEdge>, highAbove: real) returns (e: PathEdge)
    requires IsStoredPath(path) && path != []
    ensures e in path && e.risk == SumPath(path, highAbove).maxRisk
  {
    var shares := SharesOf(path, highAbove);
    forall i | 0 <= i < |path| ensures shares[i].maxRisk == path[i].risk {
      assert path[i] in path;
    }
    TotalMax(shares);
    var i :| 0 <= i < |shares| && shares[i].maxRisk == Total(shares).maxRisk;
    e := path[i];
  }

  /** A path of one risk scores that risk. */
  lemma OneRiskScore(path: seq<PathEdge>, r: real, highAbove: real)
    requires path != [] && r >= 0.0 && forall e :: e in path ==> e.length > 0.0 && e.risk == r
    ensures Score(path, highAbove) == r
  {
    PiecesSum(r, path, highAbove);
    LengthPositive(path, highAbove);
    WholeAverage(SumPath(path, highAbove), r);
  }

  lemma {:induction false} LengthPositive(path: seq<PathEdge>, highAbove: real)
    requires forall e :: e in path ==> e.length > 0.0
    ensures SumPath(path, highAbove).length >= 0.0 && (path != [] ==> SumPath(path, highAbove).length > 0.0)
  {
    if path != [] {
      var before, e := path[..|path| - 1], path[|path| - 1];
      assert e in path && path == before + [e];
      LengthPositive(before, highAbove);
      SumPathAppend(before, e, highAbove);
    }
  }

  lemma WholeAverage(s: Sums, r: real)
    requires s.weighted == s.length * r && s.length > 0.0
    ensures Average(s) == r
  {
    var q := s.weighted / s.length;
    assert q * s.length == s.weighted;
    assert (q - r) * s.length == 0.0;
  }

  lemma ScoreFalls(values: iset<real>, rows: seq<EdgeRow>, risk: map<int, real>, a: int, b: int,
                   m1: real, w1: seq<EdgeRow>, p1: seq<PathEdge>, m2: real, w2: seq<EdgeRow>, p2: seq<PathEdge>, highAbove: real)
    requires m1 < m2 && UnitValues(values) && AreAnswers(values, rows, risk, a, b, m1, w1, p1, m2, w2, p2)
    requires if m2 > 0.0 then AtMostTwo(values) else AtMostOne(values)
    ensures Score(p2, highAbove) <= Score(p1, highAbove)
  {
    AnswerIsPathOver(values, rows, risk, a, b, w1, p1);
    AnswerIsPathOver(values, rows, risk, a, b, w2, p2);
    SumBounds(p2, highAbove);
    BlendInside(SumPath(p2, highAbove));
    if p1 == [] {
      EmptyTogether(rows, risk, a, b, m1, m2, w2);
    } else if p2 == [] {
      SumBounds(p1, highAbove);
      BlendInside(SumPath(p1, highAbove));
    } else if m2 > 0.0 {
      PathsTrade(rows, risk, a, b, highAbove, m1, w1, p1, m2, w2, p2);
      WorstEdgeFollowsAverage(values, p1, p2, highAbove);
    } else {
      var r := p1[0].risk;
      assert p1[0] in p1;
      OneRiskScore(p1, r, highAbove);
      OneRiskScore(p2, r, highAbove);
    }
  }

  /** In the reported figures: while risks take at most two values, a larger effective multiplier never reports a higher score. */
  lemma ReportedScoreFalls(values: iset<real>, rows: seq<EdgeRow>, risk: map<int, real>, a: int, b: int, model: Model,
                           m1: real, w1: seq<EdgeRow>, p1: seq<PathEdge>, kind1: RouteKind, route1: SafeRoute,
                           m2: real, w2: seq<EdgeRow>, p2: seq<PathEdge>, kind2: RouteKind, route2: SafeRoute)
    requires m1 < m2 && m2 > 0.0 && UnitValues(values) && AtMostTwo(values)
    requires AreAnswers(values, rows, risk, a, b, m1, w1, p1, m2, w2, p2)
    requires IsRouteOf(route1, kind1, p1, model) && IsRouteOf(route2, kind2, p2, model)
    ensures route2.riskScore <= route1.riskScore
  {
    ScoreFalls(values, rows, risk, a, b, m1, w1, p1, m2, w2, p2, model.moderateMax);
    Round3Monotone(Score(p2, model.moderateMax), Score(p1, model.moderateMax));
  }

  // The score rises.

  lemma CostOfEdge(risk: map<int, real>, m: real, e: EdgeRow)
    ensures EdgeCost(risk, m, e) == e.length + Effective(m) * (e.length * RiskOf(risk, e))
  {
  }

  lemma OneEdgeScore(e: PathEdge, highAbove: real)
    requires e.length > 0.0 && e.risk >= 0.0
    ensures Score([e], highAbove) == e.risk
  {
    OneRiskScore([e], e.risk, highAbove);
  }

  lemma TwoEdgeScore(e: PathEdge, f: PathEdge, highAbove: real)
    requires e.length + f.length == 1.0 && 0.0 <= e.risk <= f.risk
    ensures Score([e, f], highAbove) == 0.75 * (e.length * e.risk + f.length * f.risk) + 0.25 * f.risk
  {
    SumOne(e, highAbove);
    SumPathAppend([e], f, highAbove);
    assert [e] + [f] == [e, f];
  }

  /** Shares of a length that average the outer risks to the middle one. */
  lemma Shares(x: real, y: real, z: real) returns (l: real, h: real)
    requires x < y < z
    ensures l > 0.0 && h > 0.0 && l + h == 1.0 && l * x + h * z == y
  {
    var d := z - x;
    l, h := (z - y) / d, (y - x) / d;
    assert l * d == z - y && h * d == y - x;
    assert (l + h) * d == d && (l * x + h * z) * d == y * d;
  }

  /** Two edges leading from node 0 to node 1 over node 2, as long and as exposed as the direct one. */
  ghost predicate IsDetour(rows: seq<EdgeRow>, risk: map<int, real>, direct: EdgeRow, first: EdgeRow, second: EdgeRow) {
    && rows == [direct, first, second] && PositiveLengths(rows) && UnitRisks(rows, risk)
    && direct.from == first.from == 0 && direct.to == second.to == 1 && first.to == second.from == 2
    && direct.length == first.length + second.length
    && direct.length * RiskOf(risk, direct) == first.length * RiskOf(risk, first) + second.length * RiskOf(risk, second)
  }

  /** A street of the middle risk ties under every multiplier with a detour of equal length and equal exposure that
  mixes the outer two risks, and the detour has the worse worst edge. */
  lemma ThirdRiskRaisesScore(values: iset<real>, m1: real, m2: real, highAbove: real, x: real, y: real, z: real)
    requires UnitValues(values) && x in values && y in values && z in values && x < y < z
    ensures !ScoreNeverRises(values, m1, m2, highAbove)
  {
    var l, h := Shares(x, y, z);
    var direct, first, second := EdgeRow(1, 0, 1, 1.0), EdgeRow(2, 0, 2, l), EdgeRow(3, 2, 1, h);
    var risk := map[1 := y, 2 := x, 3 := z];
    DetourRaisesScore(values, m1, m2, highAbove, [direct, first, second], risk, direct, first, second);
  }

  function AsPath(risk: map<int, real>, e: EdgeRow): PathEdge {
    PathEdge(e.id, e.length, 0.0, RiskOf(risk, e), NO_METRICS, 0.0, 0.0)
  }

  lemma DetourRaisesScore(values: iset<real>, m1: real, m2: real, highAbove: real, rows: seq<EdgeRow>, risk: map<int, real>,
                          direct: EdgeRow, first: EdgeRow, second: EdgeRow)
    requires IsDetour(rows, risk, direct, first, second) && CarriesOnly(rows, risk, values) && direct.length == 1.0
    requires RiskOf(risk, first) < RiskOf(risk, direct) < RiskOf(risk, second)
    ensures !ScoreNeverRises(values, m1, m2, highAbove)
  {
    DetourTies(rows, risk, m1, direct, first, second);
    DetourTies(rows, risk, m2, direct, first, second);
    var p1, p2 := [AsPath(risk, direct)], [AsPath(risk, first), AsPath(risk, second)];
    DetourScores(AsPath(risk, direct), AsPath(risk, first), AsPath(risk, second), highAbove);
    ScoreRose(values, highAbove, rows, risk, 0, 1, m1, [direct], p1, m2, [first, second], p2);
  }

  lemma DetourScores(direct: PathEdge, first: PathEdge, second: PathEdge, highAbove: real)
    requires 0.0 <= first.risk < direct.risk < second.risk && direct.length == first.length + second.length == 1.0
    requires direct.length * direct.risk == first.length * first.risk + second.length * second.risk
    ensures Score([first, second], highAbove) > Score([direct], highAbove)
  {
    OneEdgeScore(direct, highAbove);
    TwoEdgeScore(first, second, highAbove);
  }

  lemma ScoreRose(values: iset<real>, highAbove: real, rows: seq<EdgeRow>, risk: map<int, real>, a: int, b: int,
                  m1: real, w1: seq<EdgeRow>, p1: seq<PathEdge>, m2: real, w2: seq<EdgeRow>, p2: seq<PathEdge>)
    requires AreAnswers(values, rows, risk, a, b, m1, w1, p1, m2, w2, p2) && Score(p2, highAbove) > Score(p1, highAbove)
    ensures !ScoreNeverRises(values, m1, m2, highAbove)
  {
  }

  lemma DetourTies(rows: seq<EdgeRow>, risk: map<int, real>, m: real, direct: EdgeRow, first: EdgeRow, second: EdgeRow)
    requires IsDetour(rows, risk, direct, first, second)
    ensures IsCheapestWalk(rows, risk, m, 0, 1, [direct]) && IsCheapestWalk(rows, risk, m, 0, 1, [first, second])
  {
    var c, c1, c2 := EdgeCost(risk, m, direct), EdgeCost(risk, m, first), EdgeCost(risk, m, second);
    DetourCosts(rows, risk, m, direct, first, second);
    var potential := map[0 := 0.0, 1 := c, 2 := c1];
    OneEdgeWalk(rows, risk, m, direct);
    OneEdgeWalk(rows, risk, m, first);
    ExtendWalk(rows, 0, [first], 2, second, 1);
    assert [first] + [second] == [first, second] && [first, second][..1] == [first];
    CheapestByPotential(rows, risk, m, potential, 0, [direct], 1);
    CheapestByPotential(rows, risk, m, potential, 0, [first, second], 1);
  }

  lemma DetourCosts(rows: seq<EdgeRow>, risk: map<int, real>, m: real, direct: EdgeRow, first: EdgeRow, second: EdgeRow)
    requires IsDetour(rows, risk, direct, first, second)
    ensures EdgeCost(risk, m, direct) == EdgeCost(risk, m, first) + EdgeCost(risk, m, second)
    ensures EdgeCost(risk, m, first) > 0.0 && EdgeCost(risk, m, second) > 0.0
  {
    CostOfEdge(risk, m, direct);
    CostOfEdge(risk, m, first);
    CostOfEdge(risk, m, second);
    Distribute(first.length * RiskOf(risk, first), second.length * RiskOf(risk, second), Effective(m));
    CostPositive(rows, risk, m, first);
    CostPositive(rows, risk, m, second);
  }

  lemma CostPositive(rows: seq<EdgeRow>, risk: map<int, real>, m: real, e: EdgeRow)
    requires UnitRisks(rows, risk) && e in rows && e.length > 0.0
    ensures EdgeCost(risk, m, e) > 0.0
  {
    CostOfEdge(risk, m, e);
    Scale(e.length, 0.0, RiskOf(risk, e));
    Scale(Effective(m), 0.0, e.length * RiskOf(risk, e));
  }

  /** By plain distance two parallel streets of equal length tie, whatever their risks. */
  lemma TieRaisesScore(values: iset<real>, m1: real, m2: real, highAbove: real, x: real, y: real)
    requires m1 < m2 <= 0.0 && UnitValues(values) && x in values && y in values && x < y
    ensures !ScoreNeverRises(values, m1, m2, highAbove)
  {
    var calm, risky := EdgeRow(1, 0, 1, 1.0), EdgeRow(2, 0, 1, 1.0);
    var rows, risk, potential := [calm, risky], map[1 := x, 2 := y], map[0 := 0.0, 1 := 1.0];
    OneEdgeWalk(rows, risk, m1, calm);
    OneEdgeWalk(rows, risk, m2, risky);
    CheapestByPotential(rows, risk, m1, potential, 0, [calm], 1);
    CheapestByPotential(rows, risk, m2, potential, 0, [risky], 1);
    var p1, p2 := [PathEdge(1, 1.0, 0.0, x, NO_METRICS, 0.0, 0.0)], [PathEdge(2, 1.0, 0.0, y, NO_METRICS, 0.0, 0.0)];
    OneEdgeScore(p1[0], highAbove);
    OneEdgeScore(p2[0], highAbove);
    ScoreRose(values, highAbove, rows, risk, 0, 1, m1, [calm], p1, m2, [risky], p2);
  }
}
