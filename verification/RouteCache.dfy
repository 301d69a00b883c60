/** The route cache: a Redis-backed store that fails open and counts, and the service that consults it.

Redis may fail on any call, forget any entry at any time and hold undecodable
bytes; several requests may miss on one key together; the active model may
change between any two requests. */
module RouteCache {
  import opened Options
  import opened RiskContexts
  import opened RouteCacheKey
  import RouteAggregation

  type Routes = seq<RouteAggregation.SafeRoute>

  /** A request as the service resolves it; `at` is the moment of the walk. */
  datatype Query = Query(originLat: real, originLng: real, destLat: real, destLng: real, at: int, hour: int, isoDay: int)

  /** The endpoint payload: the echoed request, the resolved context and the computed routes. */
  datatype Response = Response(originLat: real, originLng: real, destLat: real, destLng: real, at: int,
                                  bucket: TimeBucket, weekday: WeekdayType, model: int, routes: Routes)

  /** One hour, in milliseconds. */
  const TTL := 3600000

  function FieldsOf(q: Query, model: int): KeyFields {
    KeyFields(ToFixed5(q.originLat), ToFixed5(q.originLng), ToFixed5(q.destLat), ToFixed5(q.destLng),
              HourToTimeBucket(q.hour), DayToWeekdayType(q.isoDay), model)
  }

  /** The response the service builds around freshly computed routes. */
  function ResponseOf(q: Query, model: int, routes: Routes): Response {
    Response(q.originLat, q.originLng, q.destLat, q.destLng, q.at,
             HourToTimeBucket(q.hour), DayToWeekdayType(q.isoDay), model, routes)
  }

  /** The two requests print the same coordinates, each of the four, and agree on bucket, weekday type and model. */
  predicate SameRequest(p: Query, m: int, q: Query, n: int) {
    && ToFixed5(p.originLat) == ToFixed5(q.originLat) && ToFixed5(p.originLng) == ToFixed5(q.originLng)
    && ToFixed5(p.destLat) == ToFixed5(q.destLat) && ToFixed5(p.destLng) == ToFixed5(q.destLng)
    && HourToTimeBucket(p.hour) == HourToTimeBucket(q.hour) && DayToWeekdayType(p.isoDay) == DayToWeekdayType(q.isoDay)
    && m == n
  }

  lemma SharedKeyExactly(p: Query, m: int, q: Query, n: int)
    ensures PrintKey(FieldsOf(p, m)) == PrintKey(FieldsOf(q, n)) <==> SameRequest(p, m, q, n)
  {
    if PrintKey(FieldsOf(p, m)) == PrintKey(FieldsOf(q, n)) {
      KeyInjective(FieldsOf(p, m), FieldsOf(q, n));
    }
  }

  // ---------- the store ----------

  /** A stored value: a decodable body or bytes that are not one. */
  datatype Payload = Body(response: Response) | Garbage

  datatype Entry = Entry(payload: Payload, storedAt: int, expiresAt: int)

  /** What a lookup returns; a Redis error, an expired or absent key and a decode failure are all misses. */
  function GetFrom(store: map<string, Entry>, key: string, now: int, down: bool): Option<Response> {
    if !down && key in store && now < store[key].expiresAt && store[key].payload.Body?
    then Some(store[key].payload.response) else None
  }

  function SetIn(store: map<string, Entry>, key: string, value: Response, now: int, ttl: int, down: bool): map<string, Entry> {
    if down then store else store[key := Entry(Body(value), now, now + ttl)]
  }

  datatype Stats = Stats(hits: int, misses: int, errors: int, sets: int, hitRate: real)

  class RedisRouteCache {
    var store: map<string, Entry>
    var hits: int
    var misses: int
    var errors: int
    var sets: int

    ghost predicate Valid()
      reads this
    {
      hits >= 0 && misses >= 0 && errors >= 0 && sets >= 0
    }

    constructor ()
      ensures Valid() && store == map[] && hits == misses == errors == sets == 0
    {
      store, hits, misses, errors, sets := map[], 0, 0, 0, 0;
    }

    /** Every lookup counts as exactly one hit or one miss; a miss caused by Redis or by the bytes also counts as an error. */
    method Get(key: string, now: int, down: bool) returns (r: Option<Response>)
      requires Valid()
      modifies this`hits, this`misses, this`errors
      ensures Valid()
      ensures r == if !down && key in store && now < store[key].expiresAt && store[key].payload.Body?
                   then Some(store[key].payload.response) else None
      ensures hits == old(hits) + (if r.Some? then 1 else 0) && misses == old(misses) + (if r.None? then 1 else 0)
      ensures errors == old(errors) +
              (if down || (key in store && now < store[key].expiresAt && store[key].payload.Garbage?) then 1 else 0)
    {
      if down {
        errors := errors + 1;
        misses := misses + 1;
        return None;
      }
      if key !in store || store[key].expiresAt <= now {
        misses := misses + 1;
        return None;
      }
      match store[key].payload {
        case Garbage =>
          errors := errors + 1;
          misses := misses + 1;
          return None;
        case Body(response) =>
          hits := hits + 1;
          return Some(response);
      }
    }

    /** A failed store is swallowed: the cache keeps its entries and only the error counter moves. */
    method Set(key: string, value: Response, now: int, ttl: int, down: bool)
      requires Valid()
      modifies this`store, this`errors, this`sets
      ensures Valid() && store == if down then old(store) else old(store)[key := Entry(Body(value), now, now + ttl)]
      ensures sets == old(sets) + (if down then 0 else 1) && errors == old(errors) + (if down then 1 else 0)
    {
      if down {
        errors := errors + 1;
        return;
      }
      store := store[key := Entry(Body(value), now, now + ttl)];
      sets := sets + 1;
    }

    /** hits / (hits + misses), or zero before the first lookup. */
    method ReadStats() returns (s: Stats)
      requires Valid()
      ensures s.hits == hits && s.misses == misses && s.errors == errors && s.sets == sets
      ensures 0.0 <= s.hitRate <= 1.0 && s.hitRate * (hits + misses) as real == hits as real
    {
      var total := hits + misses;
      var rate := 0.0;
      if total > 0 {
        rate := hits as real / total as real;
      }
      s := Stats(hits, misses, errors, sets, rate);
    }
  }

  // ---------- the cached service, step by step ----------

  /** A request between its cache lookup and its answer. */
  datatype Call = Call(query: Query, model: int)

  datatype Answer = Answer(call: Call, fromCache: bool, response: Response)

  /** `caching` is false for the no-op cache. */
  datatype State = State(caching: bool, now: int, store: map<string, Entry>, pending: map<int, Call>, answers: seq<Answer>)

  datatype Step =
    | Tick(elapsed: nat)
    | Lookup(id: int, query: Query, model: int, down: bool)
    | Computed(id: int, routes: Routes, down: bool)
    | Failed(id: int)
    | Forget(key: string)
    | Corrupt(key: string)

  /** The active model is read with each lookup, so a model switch is just a different `model`. */
  function Next(s: State, step: Step): State {
    match step
    case Tick(elapsed) => s.(now := s.now + elapsed)
    case Lookup(id, query, model, down) =>
      var hit := if s.caching then GetFrom(s.store, PrintKey(FieldsOf(query, model)), s.now, down) else None;
      if hit.Some? then s.(answers := s.answers + [Answer(Call(query, model), true, hit.value)])
      else s.(pending := s.pending[id := Call(query, model)])
    case Computed(id, routes, down) =>
      if id !in s.pending then s
      else
        var c := s.pending[id];
        var response := ResponseOf(c.query, c.model, routes);
        s.(pending := s.pending - {id},
           store := if s.caching then SetIn(s.store, PrintKey(FieldsOf(c.query, c.model)), response, s.now, TTL, down) else s.store,
           answers := s.answers + [Answer(c, false, response)])
    case Failed(id) => s.(pending := s.pending - {id})
    case Forget(key) => s.(store := s.store - {key})
    case Corrupt(key) =>
      if key in s.store then s.(store := s.store[key := s.store[key].(payload := Garbage)]) else s
  }

  ghost predicate IsRun(states: seq<State>, steps: seq<Step>) {
    && |states| == |steps| + 1
    && states[0].store == map[] && states[0].pending == map[] && states[0].answers == []
    && (forall i :: 0 <= i < |steps| ==> states[i + 1] == Next(states[i], steps[i]))
  }

  // ---------- what a hit returns ----------

  /** Step w computed this response for a request with the given key fields. */
  ghost predicate ComputedAt(states: seq<State>, steps: seq<Step>, w: int, f: KeyFields, response: Response)
    requires |states| == |steps| + 1
  {
    && 0 <= w < |steps| && steps[w].Computed? && steps[w].id in states[w].pending
    && var c := states[w].pending[steps[w].id];
       FieldsOf(c.query, c.model) == f && response == ResponseOf(c.query, c.model, steps[w].routes)
  }

  /** Every decodable entry was computed earlier in the run, at its storing time, for the fields its key prints. */
  ghost predicate Sourced(states: seq<State>, steps: seq<Step>, i: int)
    requires |states| == |steps| + 1 && 0 <= i <= |steps|
  {
    forall key :: key in states[i].store && states[i].store[key].payload.Body? ==>
      HasSource(states, steps, i, key, states[i].store[key])
  }

  ghost predicate HasSource(states: seq<State>, steps: seq<Step>, i: int, key: string, entry: Entry)
    requires |states| == |steps| + 1 && 0 <= i <= |steps| && entry.payload.Body?
  {
    exists w, f :: IsSource(states, steps, i, w, f, key, entry)
  }

  ghost predicate IsSource(states: seq<State>, steps: seq<Step>, i: int, w: int, f: KeyFields,
                                    key: string, entry: Entry)
    requires |states| == |steps| + 1 && 0 <= i <= |steps| && entry.payload.Body?
  {
    && 0 <= w < i && ComputedAt(states, steps, w, f, entry.payload.response)
    && key == PrintKey(f) && entry.storedAt == states[w].now && entry.expiresAt == entry.storedAt + TTL
  }

  lemma {:induction false} EntriesSourced(states: seq<State>, steps: seq<Step>, i: int)
    requires IsRun(states, steps) && 0 <= i <= |steps|
    ensures Sourced(states, steps, i)
    decreases i
  {
    if i > 0 {
      EntriesSourced(states, steps, i - 1);
      assert states[i - 1 + 1] == Next(states[i - 1], steps[i - 1]);
      forall key | key in states[i].store && states[i].store[key].payload.Body?
        ensures HasSource(states, steps, i, key, states[i].store[key])
      {
        SourceOfEntry(states, steps, i - 1, key);
      }
    }
  }

  lemma SourceOfEntry(states: seq<State>, steps: seq<Step>, i: int, key: string)
    requires IsRun(states, steps) && 0 <= i < |steps| && Sourced(states, steps, i)
    requires key in states[i + 1].store && states[i + 1].store[key].payload.Body?
    ensures HasSource(states, steps, i + 1, key, states[i + 1].store[key])
  {
    var entry := states[i + 1].store[key];
    if key in states[i].store && states[i].store[key] == entry {
      var w, f :| IsSource(states, steps, i, w, f, key, entry);
      assert IsSource(states, steps, i + 1, w, f, key, entry);
    } else {
      var c := states[i].pending[steps[i].id];
      assert IsSource(states, steps, i + 1, i, FieldsOf(c.query, c.model), key, entry);
    }
  }

  lemma {:induction false} ClockForward(states: seq<State>, steps: seq<Step>, i: int, j: int)
    requires IsRun(states, steps) && 0 <= i <= j <= |steps|
    ensures states[i].now <= states[j].now && states[i].caching == states[j].caching
    decreases j
  {
    if i < j {
      ClockForward(states, steps, i, j - 1);
      assert states[j - 1 + 1] == Next(states[j - 1], steps[j - 1]);
    }
  }

  /** A hit (the lookup of step i) returns a response computed less than one hour earlier, for a request with the same
  printed coordinates, bucket, weekday type and model. */
  lemma HitIsFresh(states: seq<State>, steps: seq<Step>, i: int) returns (w: int)
    requires IsRun(states, steps) && 0 <= i < |steps| && steps[i].Lookup? && states[i].caching
    requires GetFrom(states[i].store, PrintKey(FieldsOf(steps[i].query, steps[i].model)), states[i].now, steps[i].down).Some?
    ensures 0 <= w < i && states[w].now <= states[i].now < states[w].now + 3600000
    ensures steps[w].Computed? && steps[w].id in states[w].pending
    ensures var hit := GetFrom(states[i].store, PrintKey(FieldsOf(steps[i].query, steps[i].model)), states[i].now, steps[i].down).value;
            var filler := states[w].pending[steps[w].id];
            var p := filler.query;
            && SameRequest(p, filler.model, steps[i].query, steps[i].model)
            && hit == Response(p.originLat, p.originLng, p.destLat, p.destLng, p.at,
                               HourToTimeBucket(p.hour), DayToWeekdayType(p.isoDay), filler.model, steps[w].routes)
  {
    EntriesSourced(states, steps, i);
    var g := FieldsOf(steps[i].query, steps[i].model);
    var entry := states[i].store[PrintKey(g)];
    assert HasSource(states, steps, i, PrintKey(g), entry);
    var v, f :| IsSource(states, steps, i, v, f, PrintKey(g), entry);
    KeyInjective(f, g);
    w := v;
    ClockForward(states, steps, w, i);
  }

  /** A computed answer is given to every request that shares its key for exactly one hour, unless the entry is lost. */
  lemma EntryLivesOneHour(s: State, id: int, computed: Routes, q: Query, n: int, now: int)
    requires s.caching && id in s.pending && SameRequest(s.pending[id].query, s.pending[id].model, q, n)
    ensures var p, m := s.pending[id].query, s.pending[id].model;
            GetFrom(Next(s, Computed(id, computed, false)).store, PrintKey(FieldsOf(q, n)), now, false) ==
            if now < s.now + 3600000 then Some(ResponseOf(p, m, computed)) else None
  {
    SharedKeyExactly(s.pending[id].query, s.pending[id].model, q, n);
  }

  // ---------- the cached service refines the uncached one ----------

  /** What an uncached request is answered with: its routes by query and model. */
  type Answering = (Query, int) -> Routes

  /** Whenever routes are computed, they are these. */
  ghost predicate AnswersBy(states: seq<State>, steps: seq<Step>, routes: Answering)
    requires |states| == |steps| + 1
  {
    forall w :: 0 <= w < |steps| && steps[w].Computed? && steps[w].id in states[w].pending ==>
      steps[w].routes == routes(states[w].pending[steps[w].id].query, states[w].pending[steps[w].id].model)
  }

  /** Requests that share a printed key are answered alike. */
  ghost predicate DependsOnFields(routes: Answering) {
    forall p, m, q, n :: SameRequest(p, m, q, n) ==> routes(p, m) == routes(q, n)
  }

  ghost predicate AllRoutesBy(s: State, routes: Answering) {
    forall k :: 0 <= k < |s.answers| ==>
      s.answers[k].response.routes == routes(s.answers[k].call.query, s.answers[k].call.model)
  }

  lemma AnswerAdded(states: seq<State>, steps: seq<Step>, routes: Answering, i: int)
    requires DependsOnFields(routes) && IsRun(states, steps) && AnswersBy(states, steps, routes)
    requires 0 <= i < |steps| && AllRoutesBy(states[i], routes)
    ensures AllRoutesBy(states[i + 1], routes)
  {
    if steps[i].Lookup? && states[i].caching {
      var hit := GetFrom(states[i].store, PrintKey(FieldsOf(steps[i].query, steps[i].model)), states[i].now, steps[i].down);
      if hit.Some? {
        var w := HitIsFresh(states, steps, i);
        var filler := states[w].pending[steps[w].id];
        assert routes(filler.query, filler.model) == routes(steps[i].query, steps[i].model);
      }
    }
  }

  /** With or without the cache, every answer of a run carries the routes its own request determines: through
  faults, expiry, forgotten or corrupted entries, concurrent misses and model switches the cached service
  answers as the no-op cache does. */
  lemma {:induction false} CacheIsTransparent(states: seq<State>, steps: seq<Step>, routes: Answering, i: int)
    requires DependsOnFields(routes) && IsRun(states, steps) && AnswersBy(states, steps, routes) && 0 <= i <= |steps|
    ensures AllRoutesBy(states[i], routes)
    decreases i
  {
    if i > 0 {
      CacheIsTransparent(states, steps, routes, i - 1);
      AnswerAdded(states, steps, routes, i - 1);
    }
  }

  ghost predicate NeverNoticed(routes: Answering) {
    forall states, steps, i :: IsRun(states, steps) && AnswersBy(states, steps, routes) && 0 <= i <= |steps| ==>
      AllRoutesBy(states[i], routes)
  }

  /** The cache goes unnoticed in every run exactly when requests that share a printed key are answered alike. */
  lemma NeverNoticedExactly(routes: Answering)
    ensures NeverNoticed(routes) <==> DependsOnFields(routes)
  {
    if DependsOnFields(routes) {
      forall states, steps, i | IsRun(states, steps) && AnswersBy(states, steps, routes) && 0 <= i <= |steps|
        ensures AllRoutesBy(states[i], routes)
      {
        CacheIsTransparent(states, steps, routes, i);
      }
    } else {
      var p, m, q, n :| SameRequest(p, m, q, n) && routes(p, m) != routes(q, n);
      SharedKeyExactly(p, m, q, n);
      SharedKeyNoticed(routes, p, m, q, n);
    }
  }

  /** One request computes and stores, the next one shares its key and is given the first one's routes. */
  lemma SharedKeyNoticed(routes: Answering, p: Query, m: int, q: Query, n: int)
    requires PrintKey(FieldsOf(p, m)) == PrintKey(FieldsOf(q, n)) && routes(p, m) != routes(q, n)
    ensures !NeverNoticed(routes)
  {
    var key := PrintKey(FieldsOf(p, m));
    var response := ResponseOf(p, m, routes(p, m));
    var steps := [Lookup(1, p, m, false), Computed(1, routes(p, m), false), Lookup(2, q, n, false)];
    var s0 := State(true, 0, map[], map[], []);
    var s1 := s0.(pending := map[1 := Call(p, m)]);
    var s2 := State(true, 0, map[key := Entry(Body(response), 0, TTL)], map[], [Answer(Call(p, m), false, response)]);
    var s3 := s2.(answers := s2.answers + [Answer(Call(q, n), true, response)]);
    FirstMiss(s0, p, m);
    FirstFill(s1, p, m, routes(p, m));
    SecondHit(s2, q, n, key, response);
    FillBetweenLookups(s0, s1, s2, s3, steps[0], steps[1], steps[2], routes);
    WrongSecondAnswer(s3, routes, Answer(Call(q, n), true, response));
    Noticed(routes, [s0, s1, s2, s3], steps, s3);
  }

  lemma Noticed(routes: Answering, states: seq<State>, steps: seq<Step>, last: State)
    requires IsRun(states, steps) && AnswersBy(states, steps, routes) && last == states[|steps|] && !AllRoutesBy(last, routes)
    ensures !NeverNoticed(routes)
  {
  }

  lemma WrongSecondAnswer(s: State, routes: Answering, second: Answer)
    requires |s.answers| == 2 && s.answers[1] == second && second.response.routes != routes(second.call.query, second.call.model)
    ensures !AllRoutesBy(s, routes)
  {
  }

  lemma FillBetweenLookups(s0: State, s1: State, s2: State, s3: State, first: Step, fill: Step, second: Step, routes: Answering)
    requires s0.store == map[] && s0.pending == map[] && s0.answers == []
    requires first.Lookup? && fill.Computed? && second.Lookup? && fill.id in s1.pending
    requires s1 == Next(s0, first) && s2 == Next(s1, fill) && s3 == Next(s2, second)
    requires fill.routes == routes(s1.pending[fill.id].query, s1.pending[fill.id].model)
    ensures IsRun([s0, s1, s2, s3], [first, fill, second]) && AnswersBy([s0, s1, s2, s3], [first, fill, second], routes)
  {
    var states, steps := [s0, s1, s2, s3], [first, fill, second];
    assert states[0] == s0 && states[1] == s1 && states[2] == s2 && states[3] == s3;
    assert steps[0] == first && steps[1] == fill && steps[2] == second;
    forall i | 0 <= i < |steps| ensures states[i + 1] == Next(states[i], steps[i]) {
      assert i == 0 || i == 1 || i == 2;
    }
  }

  lemma FirstMiss(s: State, p: Query, m: int)
    requires s == State(true, 0, map[], map[], [])
    ensures Next(s, Lookup(1, p, m, false)) == s.(pending := map[1 := Call(p, m)])
  {
  }

  lemma FirstFill(s: State, p: Query, m: int, computed: Routes)
    requires s == State(true, 0, map[], map[1 := Call(p, m)], [])
    ensures var response := ResponseOf(p, m, computed);
            Next(s, Computed(1, computed, false)) ==
            State(true, 0, map[PrintKey(FieldsOf(p, m)) := Entry(Body(response), 0, TTL)], map[], [Answer(Call(p, m), false, response)])
  {
  }

  lemma SecondHit(s: State, q: Query, n: int, key: string, response: Response)
    requires s.caching && s.now == 0 && s.store == map[key := Entry(Body(response), 0, TTL)] && key == PrintKey(FieldsOf(q, n))
    ensures Next(s, Lookup(2, q, n, false)) == s.(answers := s.answers + [Answer(Call(q, n), true, response)])
  {
  }

  /** Only the routes are shared: a hit also returns the coordinates and the moment of the request that
  filled the entry, so the whole body equals a fresh one exactly when those were the same. */
  lemma HitEchoesFirstRequest(states: seq<State>, steps: seq<Step>, routes: Answering, i: int)
    returns (w: int, first: Query)
    requires DependsOnFields(routes) && IsRun(states, steps) && AnswersBy(states, steps, routes)
    requires 0 <= i < |steps| && steps[i].Lookup? && states[i].caching
    requires GetFrom(states[i].store, PrintKey(FieldsOf(steps[i].query, steps[i].model)), states[i].now, steps[i].down).Some?
    ensures 0 <= w < i && steps[w].Computed? && steps[w].id in states[w].pending && states[w].pending[steps[w].id].query == first
    ensures var q := steps[i].query;
            var hit := GetFrom(states[i].store, PrintKey(FieldsOf(q, steps[i].model)), states[i].now, steps[i].down).value;
            hit == ResponseOf(q, steps[i].model, routes(q, steps[i].model)) <==>
              first.originLat == q.originLat && first.originLng == q.originLng &&
              first.destLat == q.destLat && first.destLng == q.destLng && first.at == q.at
  {
    w := HitIsFresh(states, steps, i);
    var filler := states[w].pending[steps[w].id];
    first := filler.query;
    assert routes(filler.query, filler.model) == routes(steps[i].query, steps[i].model);
  }
}
