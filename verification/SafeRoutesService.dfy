/** The safe-routes request: validate, resolve the context, consult the cache, route per profile, aggregate. */
module SafeRoutesService {
  import opened Options
  import opened RiskContexts
  import opened RoadGraph
  import opened Rounding
  import opened RouteAggregation
  import opened TimeOfDayRisk
  import opened LeastSafeCandidate
  import opened RouteTradeoff
  import opened RouteCacheKey
  import opened RouteCache

  const MAX_SNAP_METERS := 150.0

  const PROFILES: seq<RouteKind> := [Fastest, Balanced, Safest]

  datatype Error = InvalidCoordinates | NoActiveModel | NotSeeded(profile: RouteKind) | PointOutsideGraph | NoRoute | Internal

  datatype Request = Request(from: int, to: int, model: int, bucket: TimeBucket, weekday: WeekdayType, multiplier: real)

  datatype Snapped = Snapped(origin: int, originDistance: real, dest: int, destDistance: real)

  /** What the datastore answers during one request. */
  datatype Repository = Repository(
    activeModel: Result<Model, Error>,
    multipliers: Result<map<RouteKind, real>, Error>,
    snap: Query -> Result<Snapped, Error>,
    findRoute: Request -> Result<seq<PathEdge>, Error>,
    candidates: Request -> Result<seq<seq<PathEdge>>, Error>,
    bucketRisk: (seq<int>, int, WeekdayType) -> Result<seq<EdgeBucketRisk>, Error>)

  predicate InCity(lat: real, lng: real) {
    -35.0 <= lat <= -34.0 && -59.0 <= lng <= -58.0
  }

  /** Both ends inside the bounding box, and not the same point. */
  predicate IsValid(q: Query) {
    InCity(q.originLat, q.originLng) && InCity(q.destLat, q.destLng) &&
    !(q.originLat == q.destLat && q.originLng == q.destLng)
  }

  /** A request the service takes on: both ends within the city's bounds, and not the same point. */
  ghost predicate IsRequestable(q: Query) {
    && -35.0 <= q.originLat <= -34.0 && -59.0 <= q.originLng <= -58.0
    && -35.0 <= q.destLat <= -34.0 && -59.0 <= q.destLng <= -58.0
    && (q.originLat != q.destLat || q.originLng != q.destLng)
  }

  // ---------- what is decided before routing ----------

  function FirstMissing(multipliers: map<RouteKind, real>): Option<RouteKind>
  {
    if PROFILES[0] !in multipliers then Some(PROFILES[0])
    else if PROFILES[1] !in multipliers then Some(PROFILES[1])
    else if PROFILES[2] !in multipliers then Some(PROFILES[2])
    else None
  }

  predicate Seeded(repo: Repository) {
    repo.multipliers.Ok? && Fastest in repo.multipliers.value && Balanced in repo.multipliers.value && Safest in repo.multipliers.value
  }

  /** The multiplier of profile k. */
  function MultiplierOf(repo: Repository, k: int): real
    requires Seeded(repo) && 0 <= k < 3
  {
    repo.multipliers.value[PROFILES[k]]
  }

  predicate IsNear(s: Snapped) {
    s.originDistance <= 150.0 && s.destDistance <= 150.0
  }

  /** Profiles, then snapping, then the snapping limit: a request between the snapped nodes when all is well, else
  the error of the first of them that is not. */
  function BaseRequest(repo: Repository, q: Query, model: Model): (r: Result<Request, Error>)
    ensures r.Ok? <==> Seeded(repo) && repo.snap(q).Ok? && IsNear(repo.snap(q).value)
    ensures r.Ok? ==> r.value == Request(repo.snap(q).value.origin, repo.snap(q).value.dest, model.id,
                                         HourToTimeBucket(q.hour), DayToWeekdayType(q.isoDay), 0.0)
    ensures repo.multipliers.Err? ==> r == Err(repo.multipliers.error)
    ensures repo.multipliers.Ok? ==>
              var m := repo.multipliers.value;
              && (Fastest !in m ==> r == Err(NotSeeded(Fastest)))
              && (Fastest in m && Balanced !in m ==> r == Err(NotSeeded(Balanced)))
              && (Fastest in m && Balanced in m && Safest !in m ==> r == Err(NotSeeded(Safest)))
    ensures Seeded(repo) && repo.snap(q).Err? ==> r == Err(repo.snap(q).error)
    ensures Seeded(repo) && repo.snap(q).Ok? && !IsNear(repo.snap(q).value) ==> r == Err(PointOutsideGraph)
  {
    if repo.multipliers.Err? then Err(repo.multipliers.error)
    else if FirstMissing(repo.multipliers.value).Some? then Err(NotSeeded(FirstMissing(repo.multipliers.value).value))
    else if repo.snap(q).Err? then Err(repo.snap(q).error)
    else
      var s := repo.snap(q).value;
      if s.originDistance > MAX_SNAP_METERS || s.destDistance > MAX_SNAP_METERS then Err(PointOutsideGraph)
      else Ok(Request(s.origin, s.dest, model.id, HourToTimeBucket(q.hour), DayToWeekdayType(q.isoDay), 0.0))
  }

  function Ids(edges: seq<PathEdge>): (ids: seq<int>)
    ensures |ids| == |edges| && forall i :: 0 <= i < |edges| ==> ids[i] == edges[i].id
  {
    seq(|edges|, i requires 0 <= i < |edges| => edges[i].id)
  }

  // ---------- one finished route ----------

  /** The route as aggregated, before comparisons and time of day are filled in. */
  function Figures(route: SafeRoute): SafeRoute {
    route.(extraDistance := 0.0, extraDuration := 0.0, riskReduction := 0.0, timeOfDay := None)
  }

  /** Figures from the path, comparisons against the fastest, time of day from the bucket rows. */
  ghost predicate IsFinishedRoute(route: SafeRoute, kind: RouteKind, edges: seq<PathEdge>, fastest: SafeRoute, model: Model,
                                  repo: Repository, weekday: WeekdayType) {
    && IsRouteOf(Figures(route), kind, edges, model)
    && IsTodFor(route.timeOfDay, edges, model, repo, weekday)
    && route == SetComparisons(Figures(route), fastest).(timeOfDay := route.timeOfDay)
  }

  ghost predicate IsTodFor(tod: Option<TimeOfDay>, edges: seq<PathEdge>, model: Model, repo: Repository, weekday: WeekdayType) {
    if edges == [] then tod == None
    else
      var answer := repo.bucketRisk(Ids(edges), model.id, weekday);
      answer.Ok? && tod.Some? && IsTimeOfDay(tod.value, edges, answer.value, model)
  }

  method ReadTimeOfDay(repo: Repository, edges: seq<PathEdge>, model: Model, weekday: WeekdayType)
    returns (r: Result<Option<TimeOfDay>, Error>)
    ensures r.Ok? ==> IsTodFor(r.value, edges, model, repo, weekday)
    ensures r.Err? <==> edges != [] && repo.bucketRisk(Ids(edges), model.id, weekday).Err?
    ensures r.Err? ==> r.error == repo.bucketRisk(Ids(edges), model.id, weekday).error
  {
    if edges == [] {
      return Ok(None);
    }
    var perBucket := repo.bucketRisk(Ids(edges), model.id, weekday);
    if perBucket.Err? {
      return Err(perBucket.error);
    }
    var tod := AggregateBucketRisk(edges, perBucket.value, model);
    r := Ok(tod);
  }

  /** The path of profile k, or the error its step of the loop stops with. */
  function ProfilePath(repo: Repository, base: Request, k: int): Result<seq<PathEdge>, Error>
    requires 0 <= k < 3 && Seeded(repo)
  {
    var path := repo.findRoute(base.(multiplier := MultiplierOf(repo, k)));
    if path.Err? || path.value == [] then path
    else
      var answer := repo.bucketRisk(Ids(path.value), base.model, base.weekday);
      if answer.Err? then Err(answer.error) else path
  }

  ghost predicate IsFastest(fastest: SafeRoute, repo: Repository, base: Request, model: Model)
    requires Seeded(repo)
  {
    ProfilePath(repo, base, 0).Ok? && IsRouteOf(fastest, PROFILES[0], ProfilePath(repo, base, 0).value, model)
  }

  ghost predicate IsProfileRoute(route: SafeRoute, k: int, fastest: SafeRoute, repo: Repository, base: Request, model: Model)
    requires 0 <= k < 3 && Seeded(repo)
  {
    ProfilePath(repo, base, k).Ok? &&
    IsFinishedRoute(route, PROFILES[k], ProfilePath(repo, base, k).value, fastest, model, repo, base.weekday)
  }

  /** Routes 0, 1, 2 are the profiles in order, each compared with the fastest before its own comparisons. */
  ghost predicate AreProfileRoutes(routes: seq<SafeRoute>, n: int, fastest: SafeRoute, repo: Repository, base: Request, model: Model)
    requires 0 <= n <= 3 && Seeded(repo)
  {
    && n <= |routes|
    && (forall k :: 0 <= k < n ==>
          IsProfileRoute(routes[k], k, fastest, repo, base, model))
    && (n > 0 ==> IsFastest(fastest, repo, base, model))
  }

  /** Profile k is the first one that fails, with this error. */
  ghost predicate IsFirstFailure(repo: Repository, base: Request, k: int, error: Error)
    requires Seeded(repo)
  {
    0 <= k < 3 && ProfilePath(repo, base, k) == Err(error) && PathsOk(repo, base, k)
  }

  ghost predicate PathsOk(repo: Repository, base: Request, k: int)
    requires Seeded(repo) && 0 <= k <= 3
  {
    forall j :: 0 <= j < k ==> ProfilePath(repo, base, j).Ok?
  }

  /** The three profile routes, or the error of the first profile that fails. */
  method ProfileRoutes(repo: Repository, base: Request, model: Model) returns (r: Result<seq<SafeRoute>, Error>, fastest: SafeRoute)
    requires Seeded(repo) && base.model == model.id
    ensures r.Ok? ==> |r.value| == 3 && AreProfileRoutes(r.value, 3, fastest, repo, base, model)
    ensures r.Err? ==> exists k :: IsFirstFailure(repo, base, k, r.error)
  {
    var routes: seq<SafeRoute> := [];
    fastest := AggregateRoute(Fastest, [], model);
    for k := 0 to 3
      invariant |routes| == k && AreProfileRoutes(routes, k, fastest, repo, base, model)
      invariant PathsOk(repo, base, k)
    {
      var route;
      route, fastest := ProfileRoute(repo, base, k, fastest, model);
      if route.Err? {
        assert IsFirstFailure(repo, base, k, route.error);
        r := Err(route.error);
        return;
      }
      ProfileAdded(routes, k, route.value, fastest, repo, base, model);
      routes := routes + [route.value];
    }
    r := Ok(routes);
  }

  lemma ProfileAdded(routes: seq<SafeRoute>, k: int, route: SafeRoute, fastest: SafeRoute, repo: Repository, base: Request, model: Model)
    requires 0 <= k < 3 && |routes| == k && Seeded(repo) && PathsOk(repo, base, k)
    requires k > 0 ==> AreProfileRoutes(routes, k, fastest, repo, base, model)
    requires IsProfileRoute(route, k, fastest, repo, base, model) && (k == 0 ==> IsFastest(fastest, repo, base, model))
    ensures AreProfileRoutes(routes + [route], k + 1, fastest, repo, base, model) && PathsOk(repo, base, k + 1)
  {
    var longer := routes + [route];
    assert forall j :: 0 <= j < k ==> longer[j] == routes[j];
    assert longer[k] == route;
    forall j | 0 <= j < k + 1 ensures IsProfileRoute(longer[j], j, fastest, repo, base, model) {
      assert j < k ==> IsProfileRoute(routes[j], j, fastest, repo, base, model);
    }
  }

  /** One turn of the profile loop; the first turn also fixes the fastest route. */
  method ProfileRoute(repo: Repository, base: Request, k: int, fastest0: SafeRoute, model: Model)
    returns (r: Result<SafeRoute, Error>, fastest: SafeRoute)
    requires 0 <= k < 3 && Seeded(repo) && base.model == model.id
    ensures r.Ok? ==> IsProfileRoute(r.value, k, fastest, repo, base, model)
    ensures r.Ok? && k == 0 ==> IsFastest(fastest, repo, base, model)
    ensures k > 0 ==> fastest == fastest0
    ensures r.Err? ==> ProfilePath(repo, base, k) == Err(r.error)
  {
    fastest := fastest0;
    var path := repo.findRoute(base.(multiplier := MultiplierOf(repo, k)));
    if path.Err? {
      r := Err(path.error);
      return;
    }
    var figures := AggregateRoute(PROFILES[k], path.value, model);
    if k == 0 {
      fastest := figures;
    }
    var tod := ReadTimeOfDay(repo, path.value, model, base.weekday);
    if tod.Err? {
      r := Err(tod.error);
      return;
    }
    assert ProfilePath(repo, base, k) == path;
    var route := FinishRoute(figures, PROFILES[k], path.value, fastest, model, repo, base.weekday, tod.value);
    r := Ok(route);
  }

  method FinishRoute(figures: SafeRoute, ghost kind: RouteKind, ghost edges: seq<PathEdge>, fastest: SafeRoute, ghost model: Model,
                     ghost repo: Repository, ghost weekday: WeekdayType, tod: Option<TimeOfDay>) returns (route: SafeRoute)
    requires IsRouteOf(figures, kind, edges, model) && IsTodFor(tod, edges, model, repo, weekday)
    ensures IsFinishedRoute(route, kind, edges, fastest, model, repo, weekday)
  {
    route := SetComparisons(figures, fastest).(timeOfDay := tod);
  }

  /** The candidates could not be read, or the bucket scores of the picked one could not. */
  ghost predicate ContrastFails(repo: Repository, base: Request, fastest: SafeRoute, model: Model, error: Error) {
    var paths := repo.candidates(base);
    if paths.Err? then error == paths.error
    else exists i :: IsPick(paths.value, fastest.distance, model, i) &&
                     repo.bucketRisk(Ids(paths.value[i]), model.id, base.weekday) == Err(error)
  }

  /** The contrast route, absent when no candidate is usable. */
  method LeastSafeRoute(repo: Repository, base: Request, fastest: SafeRoute, model: Model)
    returns (r: Result<Option<SafeRoute>, Error>)
    ensures r.Ok? ==> repo.candidates(base).Ok? && IsContrast(r.value, repo.candidates(base).value, fastest, model, repo, base.weekday)
    ensures r.Err? ==> ContrastFails(repo, base, fastest, model, r.error)
  {
    var paths := repo.candidates(base);
    if paths.Err? {
      return Err(paths.error);
    }
    var found, worst, index := PickLeastSafe(paths.value, fastest, model);
    if !found {
      return Ok(None);
    }
    var tod := ReadTimeOfDay(repo, paths.value[index], model, base.weekday);
    if tod.Err? {
      return Err(tod.error);
    }
    var route := FinishRoute(worst, LeastSafe, paths.value[index], fastest, model, repo, base.weekday, tod.value);
    r := Ok(Some(route));
  }

  ghost predicate IsContrast(route: Option<SafeRoute>, paths: seq<seq<PathEdge>>, fastest: SafeRoute, model: Model,
                             repo: Repository, weekday: WeekdayType) {
    if route.None? then forall j :: 0 <= j < |paths| ==> !Admissible(paths[j], fastest.distance, model)
    else exists i :: IsPick(paths, fastest.distance, model, i) &&
                     IsFinishedRoute(route.value, LeastSafe, paths[i], fastest, model, repo, weekday)
  }

  /** The uncached answer: three profile routes, then the contrast route if there is one. */
  ghost predicate AreRoutes(routes: Routes, repo: Repository, base: Request, model: Model) {
    Seeded(repo) && 3 <= |routes| <= 4 && exists fastest :: AreRoutesWith(routes, repo, base, model, fastest)
  }

  ghost predicate AreRoutesWith(routes: Routes, repo: Repository, base: Request, model: Model, fastest: SafeRoute)
    requires Seeded(repo) && 3 <= |routes| <= 4
  {
    && AreProfileRoutes(routes, 3, fastest, repo, base, model) && repo.candidates(base).Ok?
    && IsContrast(ContrastOf(routes), repo.candidates(base).value, fastest, model, repo, base.weekday)
  }

  function ContrastOf(routes: Routes): Option<SafeRoute> {
    if |routes| == 4 then Some(routes[3]) else None
  }

  /** Why no routes could be computed: before routing, at a profile, or at the contrast route. */
  ghost predicate Fails(repo: Repository, base: Result<Request, Error>, model: Model, error: Error) {
    if base.Err? then error == base.error
    else
      Seeded(repo) &&
      ((exists k :: IsFirstFailure(repo, base.value, k, error)) ||
       (exists fastest :: IsFastest(fastest, repo, base.value, model) && ContrastFails(repo, base.value, fastest, model, error)))
  }

  method ComputeRoutes(repo: Repository, q: Query, model: Model) returns (r: Result<Routes, Error>)
    ensures r.Ok? ==> BaseRequest(repo, q, model).Ok? && AreRoutes(r.value, repo, BaseRequest(repo, q, model).value, model)
    ensures r.Err? ==> Fails(repo, BaseRequest(repo, q, model), model, r.error)
  {
    var base := BaseRequest(repo, q, model);
    if base.Err? {
      return Err(base.error);
    }
    var three, fastest := ProfileRoutes(repo, base.value, model);
    if three.Err? {
      return Err(three.error);
    }
    var contrast := LeastSafeRoute(repo, base.value, fastest, model);
    if contrast.Err? {
      return Err(contrast.error);
    }
    var routes := three.value + if contrast.value.Some? then [contrast.value.value] else [];
    assert ContrastOf(routes) == contrast.value;
    assert AreProfileRoutes(routes, 3, fastest, repo, base.value, model);
    assert AreRoutesWith(routes, repo, base.value, model, fastest);
    r := Ok(routes);
  }

  /** A hit answers at once; otherwise computed routes are answered and stored under the key, and an error stores nothing. */
  ghost predicate IsServed(store: map<string, Entry>, after: map<string, Entry>, repo: Repository, q: Query, now: int,
                           getDown: bool, setDown: bool, r: Result<Response, Error>, fromCache: bool)
    requires repo.activeModel.Ok?
  {
    var model := repo.activeModel.value;
    var key := PrintKey(FieldsOf(q, model.id));
    var hit := GetFrom(store, key, now, getDown);
    && (fromCache <==> hit.Some?)
    && (fromCache ==> r == Ok(hit.value) && after == store)
    && (!fromCache && r.Err? ==> after == store && Fails(repo, BaseRequest(repo, q, model), model, r.error))
    && (!fromCache && r.Ok? ==>
          && BaseRequest(repo, q, model).Ok?
          && AreRoutes(r.value.routes, repo, BaseRequest(repo, q, model).value, model)
          && r.value == Response(q.originLat, q.originLng, q.destLat, q.destLng, q.at, HourToTimeBucket(q.hour),
                                 DayToWeekdayType(q.isoDay), model.id, r.value.routes)
          && after == SetIn(store, key, r.value, now, TTL, setDown))
  }

  /** The whole request. Only a valid query with an active model reaches the cache; a hit answers at once;
  only computed routes are stored, and neither an error nor a cache fault changes the answer. */
  method SafeRoutes(repo: Repository, cache: RedisRouteCache, q: Query, now: int, getDown: bool, setDown: bool)
    returns (r: Result<Response, Error>, fromCache: bool)
    requires cache.Valid()
    modifies cache
    ensures cache.Valid()
    ensures !IsRequestable(q) ==> r == Err(InvalidCoordinates)
    ensures IsRequestable(q) && repo.activeModel.Err? ==> r == Err(repo.activeModel.error)
    ensures !IsRequestable(q) || repo.activeModel.Err? ==> cache.store == old(cache.store) && cache.hits == old(cache.hits) && !fromCache
    ensures IsRequestable(q) && repo.activeModel.Ok? ==> IsServed(old(cache.store), cache.store, repo, q, now, getDown, setDown, r, fromCache)
  {
    fromCache := false;
    if !IsValid(q) {
      r := Err(InvalidCoordinates);
      return;
    }
    if repo.activeModel.Err? {
      r := Err(repo.activeModel.error);
      return;
    }
    var model := repo.activeModel.value;
    var key := PrintKey(FieldsOf(q, model.id));
    var cached := cache.Get(key, now, getDown);
    if cached.Some? {
      r, fromCache := Ok(cached.value), true;
      return;
    }
    var routes := ComputeRoutes(repo, q, model);
    if routes.Err? {
      r := Err(routes.error);
      return;
    }
    var response := ResponseOf(q, model.id, routes.value);
    cache.Set(key, response, now, TTL, setDown);
    r := Ok(response);
  }

  /** An uninterrupted request is a lookup followed, on a miss, by a computed answer or a failure: the runs that
  the cache laws speak of are made of these requests, interleaved with each other and with faults. */
  lemma ServedAsSteps(s: State, id: int, after: map<string, Entry>, repo: Repository, q: Query,
                      getDown: bool, setDown: bool, r: Result<Response, Error>, fromCache: bool)
    requires s.caching && id !in s.pending && repo.activeModel.Ok?
    requires IsServed(s.store, after, repo, q, s.now, getDown, setDown, r, fromCache)
    ensures var m := repo.activeModel.value.id;
            var looked := Next(s, Lookup(id, q, m, getDown));
            var done := if fromCache then looked
                        else Next(looked, if r.Ok? then Computed(id, r.value.routes, setDown) else Failed(id));
            done == s.(store := after,
                       answers := if r.Ok? then s.answers + [Answer(Call(q, m), fromCache, r.value)] else s.answers)
  {
    var m := repo.activeModel.value.id;
    if !fromCache {
      assert s.pending[id := Call(q, m)] - {id} == s.pending;
    }
  }

  // ---------- what the caller sees ----------

  /** The routing engine's contract for this repository: every returned path is a cheapest walk, enriched. */
  ghost predicate RoutesCheaply(repo: Repository, rows: seq<EdgeRow>, risk: map<int, real>, base: Request) {
    forall m :: repo.findRoute(base.(multiplier := m)).Ok? ==> RoutesCheaplyAt(repo, rows, risk, base, m)
  }

  ghost predicate RoutesCheaplyAt(repo: Repository, rows: seq<EdgeRow>, risk: map<int, real>, base: Request, m: real)
    requires repo.findRoute(base.(multiplier := m)).Ok?
  {
    exists w :: IsCheapestWalk(rows, risk, m, base.from, base.to, w) &&
                IsEnrichment(risk, w, repo.findRoute(base.(multiplier := m)).value)
  }

  lemma ProfilesTrade(repo: Repository, base: Request, model: Model, rows: seq<EdgeRow>, risk: map<int, real>,
                      routes: seq<SafeRoute>, fastest: SafeRoute, j: int, k: int)
    requires NonNegative(rows) && UnitRisks(rows, risk) && RoutesCheaply(repo, rows, risk, base)
    requires Seeded(repo)
    requires 0 <= j < 3 && 0 <= k < 3 && Effective(MultiplierOf(repo, j)) < Effective(MultiplierOf(repo, k))
    requires |routes| >= 3 && IsProfileRoute(routes[j], j, fastest, repo, base, model) && IsProfileRoute(routes[k], k, fastest, repo, base, model)
    ensures routes[j].distance <= routes[k].distance && routes[k].avgEdgeRisk <= routes[j].avgEdgeRisk
  {
    var mj, mk := MultiplierOf(repo, j), MultiplierOf(repo, k);
    var pj, pk := ProfilePath(repo, base, j).value, ProfilePath(repo, base, k).value;
    var wj := CheapWalk(repo, rows, risk, base, mj, pj);
    var wk := CheapWalk(repo, rows, risk, base, mk, pk);
    ReportedTradeoff(rows, risk, base.from, base.to, model, mj, wj, pj, PROFILES[j], Figures(routes[j]),
                     mk, wk, pk, PROFILES[k], Figures(routes[k]));
  }

  lemma CheapWalk(repo: Repository, rows: seq<EdgeRow>, risk: map<int, real>, base: Request, m: real, path: seq<PathEdge>)
    returns (w: seq<EdgeRow>)
    requires RoutesCheaply(repo, rows, risk, base) && repo.findRoute(base.(multiplier := m)) == Ok(path)
    ensures IsCheapestWalk(rows, risk, m, base.from, base.to, w) && IsEnrichment(risk, w, path)
  {
    assert RoutesCheaplyAt(repo, rows, risk, base, m);
    w :| IsCheapestWalk(rows, risk, m, base.from, base.to, w) && IsEnrichment(risk, w, path);
  }

  /** The three profile routes are the fastest, the balanced and the safest one, each the engine's answer for the
  profile's own multiplier. */
  lemma ProfilesWrittenOut(repo: Repository, base: Request, model: Model, routes: Routes)
    requires AreRoutes(routes, repo, base, model)
    ensures routes[0].kind == Fastest && routes[1].kind == Balanced && routes[2].kind == Safest
    ensures var m := repo.multipliers.value;
            && AnswersFor(repo, base, m[Fastest], routes[0], model)
            && AnswersFor(repo, base, m[Balanced], routes[1], model)
            && AnswersFor(repo, base, m[Safest], routes[2], model)
  {
    var fastest :| AreRoutesWith(routes, repo, base, model, fastest);
    assert IsProfileRoute(routes[0], 0, fastest, repo, base, model);
    assert IsProfileRoute(routes[1], 1, fastest, repo, base, model);
    assert IsProfileRoute(routes[2], 2, fastest, repo, base, model);
  }

  /** The route is aggregated from the path the repository finds under the multiplier. */
  ghost predicate AnswersFor(repo: Repository, base: Request, multiplier: real, route: SafeRoute, model: Model) {
    var path := repo.findRoute(Request(base.from, base.to, base.model, base.bucket, base.weekday, multiplier));
    path.Ok? && IsRouteOf(Figures(route), route.kind, path.value, model)
  }

  /** The comparisons of a route with the fastest one. */
  predicate IsComparedWith(route: SafeRoute, distance: real, duration: real, riskScore: real) {
    && route.extraDistance == Round1(route.distance - distance) && route.extraDuration == Round1(route.duration - duration)
    && route.riskReduction == if riskScore > 0.0 then Round1(100.0 * (riskScore - route.riskScore) / riskScore) else 0.0
  }

  lemma FinishedIsCompared(route: SafeRoute, kind: RouteKind, edges: seq<PathEdge>, fastest: SafeRoute, model: Model,
                           repo: Repository, weekday: WeekdayType)
    requires IsFinishedRoute(route, kind, edges, fastest, model, repo, weekday)
    ensures IsComparedWith(route, fastest.distance, fastest.duration, fastest.riskScore)
  {
    ComparisonsWrittenOut(Figures(route), fastest);
  }

  lemma ProfileIsCompared(route: SafeRoute, k: int, fastest: SafeRoute, repo: Repository, base: Request, model: Model)
    requires 0 <= k < 3 && Seeded(repo) && IsProfileRoute(route, k, fastest, repo, base, model)
    ensures IsComparedWith(route, fastest.distance, fastest.duration, fastest.riskScore)
  {
    FinishedIsCompared(route, PROFILES[k], ProfilePath(repo, base, k).value, fastest, model, repo, base.weekday);
  }

  lemma ContrastIsCompared(route: Option<SafeRoute>, paths: seq<seq<PathEdge>>, fastest: SafeRoute, model: Model,
                           repo: Repository, weekday: WeekdayType)
    requires IsContrast(route, paths, fastest, model, repo, weekday) && route.Some?
    ensures IsComparedWith(route.value, fastest.distance, fastest.duration, fastest.riskScore)
  {
    var i :| IsPick(paths, fastest.distance, model, i) &&
             IsFinishedRoute(route.value, LeastSafe, paths[i], fastest, model, repo, weekday);
    FinishedIsCompared(route.value, LeastSafe, paths[i], fastest, model, repo, weekday);
  }

  /** Every returned route, the contrast one included, is compared with the first. */
  lemma ComparedWithFirst(repo: Repository, base: Request, model: Model, routes: Routes)
    requires AreRoutes(routes, repo, base, model)
    ensures IsCompared(routes[0], routes[0]) && IsCompared(routes[1], routes[0]) && IsCompared(routes[2], routes[0])
    ensures |routes| == 4 ==> IsCompared(routes[3], routes[0])
  {
    var fastest :| AreRoutesWith(routes, repo, base, model, fastest);
    ProfileComparedWithFirst(repo, base, model, routes, fastest, routes[0], 0);
    ProfileComparedWithFirst(repo, base, model, routes, fastest, routes[1], 1);
    ProfileComparedWithFirst(repo, base, model, routes, fastest, routes[2], 2);
    if |routes| == 4 {
      FirstIsFastest(repo, base, model, routes[0], fastest);
      FourthIsCompared(repo, base, model, routes, fastest);
      ComparedWithEqual(routes[3], fastest, routes[0]);
    }
  }

  predicate IsCompared(route: SafeRoute, first: SafeRoute) {
    IsComparedWith(route, first.distance, first.duration, first.riskScore)
  }

  lemma ProfileComparedWithFirst(repo: Repository, base: Request, model: Model, routes: Routes, fastest: SafeRoute,
                                 route: SafeRoute, k: int)
    requires Seeded(repo) && 0 <= k < 3 <= |routes| && route == routes[k] && AreProfileRoutes(routes, 3, fastest, repo, base, model)
    ensures IsCompared(route, routes[0])
  {
    FirstIsFastest(repo, base, model, routes[0], fastest);
    ProfileIsCompared(route, k, fastest, repo, base, model);
    ComparedWithEqual(route, fastest, routes[0]);
  }

  lemma ComparedWithEqual(route: SafeRoute, fastest: SafeRoute, first: SafeRoute)
    requires IsComparedWith(route, fastest.distance, fastest.duration, fastest.riskScore)
    requires first.distance == fastest.distance && first.duration == fastest.duration && first.riskScore == fastest.riskScore
    ensures IsCompared(route, first)
  {
  }

  lemma FourthIsCompared(repo: Repository, base: Request, model: Model, routes: Routes, fastest: SafeRoute)
    requires Seeded(repo) && |routes| == 4 && repo.candidates(base).Ok?
    requires IsContrast(ContrastOf(routes), repo.candidates(base).value, fastest, model, repo, base.weekday)
    ensures IsComparedWith(routes[3], fastest.distance, fastest.duration, fastest.riskScore)
  {
    ContrastIsCompared(ContrastOf(routes), repo.candidates(base).value, fastest, model, repo, base.weekday);
  }

  lemma FirstIsFastest(repo: Repository, base: Request, model: Model, first: SafeRoute, fastest: SafeRoute)
    requires Seeded(repo) && IsProfileRoute(first, 0, fastest, repo, base, model) && IsFastest(fastest, repo, base, model)
    ensures first.distance == fastest.distance && first.duration == fastest.duration && first.riskScore == fastest.riskScore
  {
    SameFigures(first, fastest, ProfilePath(repo, base, 0).value, model);
  }

  lemma SameFigures(route: SafeRoute, fastest: SafeRoute, edges: seq<PathEdge>, model: Model)
    requires IsRouteOf(Figures(route), Fastest, edges, model) && IsRouteOf(fastest, Fastest, edges, model)
    ensures route.distance == fastest.distance && route.duration == fastest.duration && route.riskScore == fastest.riskScore
  {
  }

  /** With effective multipliers rising from fastest over balanced to safest, as the seeded ones do, the three
  reported distances do not fall and the three reported average risks do not rise. */
  lemma ProfilesAreOrdered(repo: Repository, base: Request, model: Model, rows: seq<EdgeRow>, risk: map<int, real>, routes: Routes)
    requires AreRoutes(routes, repo, base, model)
    requires NonNegative(rows) && UnitRisks(rows, risk) && RoutesCheaply(repo, rows, risk, base)
    requires var m := repo.multipliers.value; Effective(m[Fastest]) < Effective(m[Balanced]) < Effective(m[Safest])
    ensures AreOrdered(routes)
  {
    var fastest :| AreRoutesWith(routes, repo, base, model, fastest);
    ProfilesOrderedFrom(repo, base, model, rows, risk, routes, fastest);
  }

  predicate AreOrdered(routes: Routes)
    requires |routes| >= 3
  {
    && routes[0].distance <= routes[1].distance <= routes[2].distance
    && routes[2].avgEdgeRisk <= routes[1].avgEdgeRisk <= routes[0].avgEdgeRisk
  }

  lemma ProfilesOrderedFrom(repo: Repository, base: Request, model: Model, rows: seq<EdgeRow>, risk: map<int, real>,
                            routes: Routes, fastest: SafeRoute)
    requires Seeded(repo) && AreProfileRoutes(routes, 3, fastest, repo, base, model)
    requires NonNegative(rows) && UnitRisks(rows, risk) && RoutesCheaply(repo, rows, risk, base)
    requires Effective(MultiplierOf(repo, 0)) < Effective(MultiplierOf(repo, 1)) < Effective(MultiplierOf(repo, 2))
    ensures AreOrdered(routes)
  {
    ProfilesTrade(repo, base, model, rows, risk, routes, fastest, 0, 1);
    ProfilesTrade(repo, base, model, rows, risk, routes, fastest, 1, 2);
  }
}
