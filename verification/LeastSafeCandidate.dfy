/** The contrast route: the riskiest of the K distance-ranked candidates within the detour bound. */
module LeastSafeCandidate {
  import opened Rounding
  import opened RouteAggregation

  const DETOUR_RATIO := 1.75

  /** A candidate is usable when its reported distance is within the bound, or the fastest route has no length. */
  predicate Admissible(edges: seq<PathEdge>, fastest: real, model: Model) {
    fastest <= 0.0 || Round1(SumPath(edges, model.moderateMax).length) <= 1.75 * fastest
  }

  function TrueRisk(edges: seq<PathEdge>, model: Model): real {
    Blend(SumPath(edges, model.moderateMax))
  }

  function Scores(paths: seq<seq<PathEdge>>, model: Model): (s: seq<real>)
    ensures |s| == |paths|
  {
    seq(|paths|, i requires 0 <= i < |paths| => Round3(TrueRisk(paths[i], model)))
  }

  function Usable(paths: seq<seq<PathEdge>>, fastest: real, model: Model): (u: seq<bool>)
    ensures |u| == |paths|
  {
    seq(|paths|, i requires 0 <= i < |paths| => Admissible(paths[i], fastest, model))
  }

  /** i is the first usable index of highest score among the first n. */
  ghost predicate IsFirstMax(scores: seq<real>, usable: seq<bool>, n: int, i: int)
    requires |scores| == |usable|
  {
    && 0 <= i < n <= |scores| && usable[i]
    && (forall j :: 0 <= j < n && usable[j] ==> scores[j] <= scores[i])
    && (forall j :: 0 <= j < i && usable[j] ==> scores[j] < scores[i])
  }

  ghost predicate NoneUsable(usable: seq<bool>, n: int) {
    0 <= n <= |usable| && forall j :: 0 <= j < n ==> !usable[j]
  }

  /** The state of the selection after n candidates. */
  ghost predicate IsSelection(scores: seq<real>, usable: seq<bool>, n: int, found: bool, i: int)
    requires |scores| == |usable|
  {
    if found then IsFirstMax(scores, usable, n, i) else NoneUsable(usable, n)
  }

  lemma SelectNext(scores: seq<real>, usable: seq<bool>, n: int, found: bool, i: int)
    requires |scores| == |usable| && 0 <= n < |usable| && IsSelection(scores, usable, n, found, i)
    ensures if !usable[n] then IsSelection(scores, usable, n + 1, found, i)
            else if !found || scores[n] > scores[i] then IsSelection(scores, usable, n + 1, true, n)
            else IsSelection(scores, usable, n + 1, found, i)
  {
  }

  /** i is the first admissible candidate of highest reported score. */
  ghost predicate IsPick(paths: seq<seq<PathEdge>>, fastest: real, model: Model, i: int) {
    IsFirstMax(Scores(paths, model), Usable(paths, fastest, model), |paths|, i)
  }

  /** The selection loop; `worst` and `index` are meaningful when found. */
  method PickLeastSafe(paths: seq<seq<PathEdge>>, fastest: SafeRoute, model: Model)
    returns (found: bool, worst: SafeRoute, index: int)
    ensures !found <==> forall j :: 0 <= j < |paths| ==> !Admissible(paths[j], fastest.distance, model)
    ensures found ==> IsPick(paths, fastest.distance, model, index) && IsRouteOf(worst, LeastSafe, paths[index], model)
  {
    found, worst, index := false, fastest, -1;
    ghost var scores, usable := Scores(paths, model), Usable(paths, fastest.distance, model);
    for i := 0 to |paths|
      invariant IsSelection(scores, usable, i, found, index)
      invariant found ==> 0 <= index < i && worst.riskScore == scores[index] && IsRouteOf(worst, LeastSafe, paths[index], model)
    {
      SelectNext(scores, usable, i, found, index);
      var route := AggregateCandidate(paths[i], fastest.distance, model);
      if fastest.distance > 0.0 && route.distance > fastest.distance * DETOUR_RATIO {
        continue;
      }
      if !found || route.riskScore > worst.riskScore {
        found, worst, index := true, route, i;
      }
    }
    assert forall j :: 0 <= j < |paths| ==> usable[j] == Admissible(paths[j], fastest.distance, model);
  }

  method AggregateCandidate(path: seq<PathEdge>, ghost fastest: real, model: Model) returns (route: SafeRoute)
    ensures IsRouteOf(route, LeastSafe, path, model) && route.riskScore == Round3(TrueRisk(path, model))
    ensures Admissible(path, fastest, model) <==> !(fastest > 0.0 && route.distance > fastest * DETOUR_RATIO)
  {
    route := AggregateRoute(LeastSafe, path, model);
  }

  /** Scores are compared after rounding to three decimals, so the pick's true risk can fall short of
  another admissible candidate's by at most 0.001, and never by more. */
  lemma PickIsNearlyRiskiest(paths: seq<seq<PathEdge>>, fastest: real, model: Model, i: int, j: int)
    requires IsPick(paths, fastest, model, i)
    requires 0 <= j < |paths| && Admissible(paths[j], fastest, model)
    ensures TrueRisk(paths[j], model) <= TrueRisk(paths[i], model) + 0.001
  {
    Round3Near(TrueRisk(paths[i], model));
    Round3Near(TrueRisk(paths[j], model));
    assert Usable(paths, fastest, model)[j];
    assert Scores(paths, model)[j] <= Scores(paths, model)[i];
  }

  /** The reported distance of a path may be at most 1.75 times the fastest one, if that has a length. */
  ghost predicate IsUsable(path: seq<PathEdge>, fastest: real) {
    fastest <= 0.0 || Round1(FigureSum(path, Length)) <= 1.75 * fastest
  }

  /** The pick in the terms of the paths: usable, no usable path reports a higher score, no earlier one as high a score. */
  lemma PickWrittenOut(paths: seq<seq<PathEdge>>, fastest: real, model: Model, i: int)
    ensures IsPick(paths, fastest, model, i) <==>
            && 0 <= i < |paths| && IsUsable(paths[i], fastest)
            && forall j :: 0 <= j < |paths| && IsUsable(paths[j], fastest) ==>
                 Round3(TrueRisk(paths[j], model)) < Round3(TrueRisk(paths[i], model)) ||
                 (Round3(TrueRisk(paths[j], model)) == Round3(TrueRisk(paths[i], model)) && i <= j)
  {
    forall j | 0 <= j < |paths| ensures Usable(paths, fastest, model)[j] <==> IsUsable(paths[j], fastest) {
      SumsWrittenOut(paths[j], model.moderateMax);
    }
    forall j | 0 <= j < |paths| ensures Scores(paths, model)[j] == Round3(TrueRisk(paths[j], model)) {}
  }

  /** The pick is determined: ties go to the earliest candidate. */
  lemma PickIsUnique(paths: seq<seq<PathEdge>>, fastest: real, model: Model, i: int, j: int)
    requires IsPick(paths, fastest, model, i) && IsPick(paths, fastest, model, j)
    ensures i == j
  {
    assert !(i < j) && !(j < i);
  }

  /** The reported contrast route is at most 1.75 times the fastest reported distance, unless the fastest has none. */
  lemma PickWithinDetour(worst: SafeRoute, paths: seq<seq<PathEdge>>, fastest: SafeRoute, model: Model, i: int)
    requires IsPick(paths, fastest.distance, model, i) && IsRouteOf(worst, LeastSafe, paths[i], model)
    ensures fastest.distance > 0.0 ==> worst.distance <= 1.75 * fastest.distance
  {
    assert Usable(paths, fastest.distance, model)[i];
  }
}
