/** The bounded multi-seed Dijkstra search over a binary heap with lazy deletion. */
module BoundedSearch {
  import opened FiniteSets
  import opened RoadGraph

  /** A heap entry: tentative distance first, as Python compares tuples. */
  datatype Entry = Entry(d: real, node: int)

  predicate NotAfter(x: Entry, y: Entry) {
    x.d < y.d || (x.d == y.d && x.node <= y.node)
  }

  lemma {:induction false} LeastExists(entries: multiset<Entry>) returns (least: Entry)
    requires |entries| > 0
    ensures least in entries && forall x :: x in entries ==> NotAfter(least, x)
    decreases |entries|
  {
    var e :| e in entries;
    var rest := entries - multiset{e};
    if |rest| == 0 {
      least := e;
      assert entries == multiset{e} + rest;
    } else {
      var l := LeastExists(rest);
      least := if NotAfter(e, l) then e else l;
      forall x | x in entries ensures NotAfter(least, x) {
        if x != e { assert x in rest; }
      }
    }
  }

  /** What the heapq list promises: pop removes one least entry and nothing else. */
  class Heap {
    var entries: multiset<Entry>

    constructor ()
      ensures entries == multiset{}
    {
      entries := multiset{};
    }

    method Push(e: Entry)
      modifies this
      ensures entries == old(entries) + multiset{e}
    {
      entries := entries + multiset{e};
    }

    method Pop() returns (e: Entry)
      requires |entries| > 0
      modifies this
      ensures e in old(entries) && forall x :: x in old(entries) ==> NotAfter(e, x)
      ensures entries == old(entries) - multiset{e}
    {
      ghost var least := LeastExists(entries);
      assert least in entries && forall x | x in entries :: NotAfter(least, x);
      e :| e in entries && forall x | x in entries :: NotAfter(e, x);
      entries := entries - multiset{e};
    }
  }

  // ---------- the specification: cheapest seed-plus-walk cost ----------

  /** Some seed and some walk from it reach v at cost exactly c. */
  ghost predicate Reached(rows: seq<EdgeRow>, seeds: map<int, real>, v: int, c: real) {
    exists s, w :: ReachedBy(rows, seeds, s, w, v, c)
  }

  ghost predicate ReachedBy(rows: seq<EdgeRow>, seeds: map<int, real>, s: int, w: seq<EdgeRow>, v: int, c: real) {
    s in seeds && IsWalk(rows, s, w, v) && seeds[s] + WalkLength(w) == c
  }

  /** c is the minimum over all seeds and all walks to v. */
  ghost predicate IsCheapest(rows: seq<EdgeRow>, seeds: map<int, real>, v: int, c: real) {
    Reached(rows, seeds, v, c) && forall other :: Reached(rows, seeds, v, other) ==> c <= other
  }

  /** Following an arc extends the walk that reached its tail. */
  lemma FollowArc(rows: seq<EdgeRow>, seeds: map<int, real>, u: int, d: real, a: Arc)
    requires NonNegative(rows) && Reached(rows, seeds, u, d) && a in AdjacencyOf(rows, u)
    ensures a.length >= 0.0 && Reached(rows, seeds, a.node, d + a.length)
    ensures a.node in NodesOf(rows)
  {
    var s, w :| ReachedBy(rows, seeds, s, w, u, d);
    AdjacencyMeaning(rows, u, a);
    var e :| e in rows && e.length == a.length && ((e.from == u && e.to == a.node) || (e.to == u && e.from == a.node));
    ExtendWalk(rows, s, w, u, e, a.node);
    assert ReachedBy(rows, seeds, s, w + [e], a.node, d + a.length);
  }

  // ---------- the loop invariant ----------

  /** What following one arc of the node just settled adds to the heap: its head, when unsettled and within the bound. */
  function PushesOf(dist: map<int, real>, top: Entry, bound: real, a: Arc): multiset<Entry> {
    if top.d + a.length <= bound && a.node !in dist then multiset{Entry(top.d + a.length, a.node)} else multiset{}
  }

  function Pushes(dist: map<int, real>, top: Entry, bound: real, arcs: seq<Arc>): multiset<Entry> {
    if arcs == [] then multiset{}
    else Pushes(dist, top, bound, arcs[..|arcs| - 1]) + PushesOf(dist, top, bound, arcs[|arcs| - 1])
  }

  lemma PushesNext(dist: map<int, real>, entries: multiset<Entry>, top: Entry, bound: real, done: seq<Arc>, a: Arc)
    ensures entries + Pushes(dist, top, bound, done + [a]) ==
            entries + Pushes(dist, top, bound, done) + PushesOf(dist, top, bound, a)
  {
    assert (done + [a])[..|done|] == done;
  }

  /** One search as its loop sees it: the lists it walks over, the (distance, node) pairs that
  real walks attain, and the nodes it can touch. */
  datatype Search = Search(adjacency: map<int, seq<Arc>>, seeds: map<int, real>, bound: real,
                           ghost attained: iset<Entry>, ghost universe: set<int>)
  {
    ghost predicate Closed() {
      && (forall s :: s in seeds ==> Entry(seeds[s], s) in attained && s in universe)
      && (forall e, a :: e in attained && a in Get(adjacency, e.node) ==> Follows(e, a))
    }

    ghost predicate Follows(e: Entry, a: Arc) {
      a.length >= 0.0 && Entry(e.d + a.length, a.node) in attained && a.node in universe
    }

    /** An attained pair, beyond the bound only as a seed's own. */
    ghost predicate Sound(e: Entry) {
      && e in attained && e.node in universe
      && (e.d <= bound || (e.node in seeds && e.d == seeds[e.node]))
    }

    /** v is settled at c or less, or queued at c or less. */
    ghost predicate Covered(dist: map<int, real>, entries: multiset<Entry>, v: int, c: real) {
      (v in dist && dist[v] <= c) || exists e :: e in entries && e.node == v && e.d <= c
    }

    ghost predicate Expanded(dist: map<int, real>, entries: multiset<Entry>, arcs: seq<Arc>, from: real) {
      forall a :: a in arcs && from + a.length <= bound ==> Covered(dist, entries, a.node, from + a.length)
    }

    /** The loop invariant; `open` holds the node being expanded, if any. */
    ghost predicate Inv(dist: map<int, real>, entries: multiset<Entry>, open: set<int>) {
      && (forall v :: v in dist ==> Sound(Entry(dist[v], v)))
      && (forall e :: e in entries ==> Sound(e))
      && (forall v, e :: v in dist && e in entries ==> dist[v] <= e.d)
      && (forall s :: s in seeds ==> Covered(dist, entries, s, seeds[s]))
      && (forall u :: u in dist && u !in open ==> Expanded(dist, entries, Get(adjacency, u), dist[u]))
    }

    lemma Start(entries: multiset<Entry>)
      requires Closed()
      requires forall e :: e in entries ==> e.node in seeds && e.d == seeds[e.node]
      requires forall s :: s in seeds ==> Entry(seeds[s], s) in entries
      ensures Inv(map[], entries, {})
    {
      forall s | s in seeds ensures Covered(map[], entries, s, seeds[s]) {
        assert Entry(seeds[s], s) in entries;
      }
    }

    /** Settling a least entry of an unsettled node, or dropping a stale one, uncovers nothing. */
    lemma PopKeepsCover(dist: map<int, real>, entries: multiset<Entry>, e: Entry, v: int, c: real)
      requires e in entries && Covered(dist, entries, v, c)
      requires e.node in dist ==> dist[e.node] <= e.d
      ensures Covered(if e.node in dist then dist else dist[e.node := e.d], entries - multiset{e}, v, c)
    {
      if !(v in dist && dist[v] <= c) {
        var x :| x in entries && x.node == v && x.d <= c;
        if x != e { assert x in entries - multiset{e}; }
      }
    }

    lemma Pop(dist: map<int, real>, entries: multiset<Entry>, e: Entry, settled: map<int, real>)
      requires Inv(dist, entries, {}) && e in entries && forall x :: x in entries ==> NotAfter(e, x)
      requires settled == if e.node in dist then dist else dist[e.node := e.d]
      ensures Inv(settled, entries - multiset{e}, if e.node in dist then {} else {e.node})
      ensures forall v :: v in settled ==> settled[v] <= e.d
      ensures Sound(e)
    {
      var rest := entries - multiset{e};
      forall s | s in seeds ensures Covered(settled, rest, s, seeds[s]) {
        PopKeepsCover(dist, entries, e, s, seeds[s]);
      }
      forall u | u in dist ensures Expanded(settled, rest, Get(adjacency, u), dist[u]) {
        assert Expanded(dist, entries, Get(adjacency, u), dist[u]);
        forall a | a in Get(adjacency, u) && dist[u] + a.length <= bound
          ensures Covered(settled, rest, a.node, dist[u] + a.length)
        {
          PopKeepsCover(dist, entries, e, a.node, dist[u] + a.length);
        }
      }
    }

    lemma CoverGrows(dist: map<int, real>, entries: multiset<Entry>, e: Entry, v: int, c: real)
      requires Covered(dist, entries, v, c)
      ensures Covered(dist, entries + multiset{e}, v, c)
    {
      if !(v in dist && dist[v] <= c) {
        var x :| x in entries && x.node == v && x.d <= c;
        assert x in entries + multiset{e};
      }
    }

    /** Queueing a sound entry no cheaper than what is settled uncovers nothing. */
    lemma Push(dist: map<int, real>, entries: multiset<Entry>, e: Entry, open: set<int>, done: seq<Arc>, from: real)
      requires Inv(dist, entries, open) && Sound(e) && forall v :: v in dist ==> dist[v] <= e.d
      requires Expanded(dist, entries, done, from)
      ensures Inv(dist, entries + multiset{e}, open)
      ensures Expanded(dist, entries + multiset{e}, done, from)
      ensures Covered(dist, entries + multiset{e}, e.node, e.d)
    {
      var more := entries + multiset{e};
      assert e in more;
      forall v, c | Covered(dist, entries, v, c) ensures Covered(dist, more, v, c) {
        CoverGrows(dist, entries, e, v, c);
      }
      forall u | u in dist && u !in open ensures Expanded(dist, more, Get(adjacency, u), dist[u]) {
        assert Expanded(dist, entries, Get(adjacency, u), dist[u]);
      }
    }

    lemma Open(dist: map<int, real>, entries: multiset<Entry>, top: Entry)
      requires Inv(dist, entries, {top.node}) && top.node in dist && dist[top.node] == top.d
      ensures top in attained
    {
      assert Sound(Entry(dist[top.node], top.node));
    }

    /** Once all its arcs are followed, the node being expanded is like every other settled one. */
    lemma Close(dist: map<int, real>, entries: multiset<Entry>, top: Entry)
      requires Inv(dist, entries, {top.node}) && top.node in dist && dist[top.node] == top.d
      requires Expanded(dist, entries, Get(adjacency, top.node), top.d)
      ensures Inv(dist, entries, {})
    {
    }

    /** Following one more arc keeps the invariant and covers its head. */
    lemma Consider(dist: map<int, real>, entries: multiset<Entry>, top: Entry, done: seq<Arc>, a: Arc)
      requires Closed() && Inv(dist, entries, {top.node}) && Expanded(dist, entries, done, top.d)
      requires top in attained && a in Get(adjacency, top.node) && forall v :: v in dist ==> dist[v] <= top.d
      ensures Inv(dist, entries + PushesOf(dist, top, bound, a), {top.node})
      ensures Expanded(dist, entries + PushesOf(dist, top, bound, a), done + [a], top.d)
    {
      assert Follows(top, a);
      if top.d + a.length <= bound && a.node !in dist {
        Push(dist, entries, Entry(top.d + a.length, a.node), {top.node}, done, top.d);
      } else {
        assert entries + PushesOf(dist, top, bound, a) == entries;
        SkipKeepsCover(dist, entries, top, done, a);
      }
    }

    lemma SkipKeepsCover(dist: map<int, real>, entries: multiset<Entry>, top: Entry, done: seq<Arc>, a: Arc)
      requires Expanded(dist, entries, done, top.d) && a.length >= 0.0
      requires (top.d + a.length <= bound ==> a.node in dist) && forall v :: v in dist ==> dist[v] <= top.d
      ensures Expanded(dist, entries, done + [a], top.d)
    {
    }

    lemma {:induction false} ConsiderAll(dist: map<int, real>, entries: multiset<Entry>, top: Entry, done: seq<Arc>)
      requires Closed() && Inv(dist, entries, {top.node}) && forall a :: a in done ==> a in Get(adjacency, top.node)
      requires top in attained && forall v :: v in dist ==> dist[v] <= top.d
      ensures Inv(dist, entries + Pushes(dist, top, bound, done), {top.node})
      ensures Expanded(dist, entries + Pushes(dist, top, bound, done), done, top.d)
      decreases |done|
    {
      if done == [] {
        assert entries + multiset{} == entries;
      } else {
        var before, a := done[..|done| - 1], done[|done| - 1];
        ConsiderAll(dist, entries, top, before);
        assert a in done && done == before + [a];
        PushesNext(dist, entries, top, bound, before, a);
        Consider(dist, entries + Pushes(dist, top, bound, before), top, before, a);
      }
    }

    /** Following all arcs of the node just settled re-establishes the invariant. */
    lemma Expand(dist: map<int, real>, entries: multiset<Entry>, top: Entry)
      requires Closed() && Inv(dist, entries, {top.node})
      requires top.node in dist && dist[top.node] == top.d && forall v :: v in dist ==> dist[v] <= top.d
      ensures Inv(dist, entries + Pushes(dist, top, bound, Get(adjacency, top.node)), {})
    {
      var arcs := Get(adjacency, top.node);
      Open(dist, entries, top);
      ConsiderAll(dist, entries, top, arcs);
      Close(dist, entries + Pushes(dist, top, bound, arcs), top);
    }
  }

  ghost function NodesOf(rows: seq<EdgeRow>): set<int> {
    (set e | e in rows :: e.from) + (set e | e in rows :: e.to)
  }

  ghost function SearchOf(rows: seq<EdgeRow>, adjacency: map<int, seq<Arc>>, seeds: map<int, real>, bound: real): Search {
    Search(adjacency, seeds, bound, (iset e: Entry | Reached(rows, seeds, e.node, e.d)), seeds.Keys + NodesOf(rows))
  }

  lemma SeedReached(rows: seq<EdgeRow>, seeds: map<int, real>, s: int)
    requires s in seeds
    ensures Reached(rows, seeds, s, seeds[s])
  {
    assert WalkLength([]) == 0.0;
    assert ReachedBy(rows, seeds, s, [], s, seeds[s]);
  }

  lemma SearchIsClosed(rows: seq<EdgeRow>, adjacency: map<int, seq<Arc>>, seeds: map<int, real>, bound: real)
    requires NonNegative(rows) && IsAdjacencyOf(adjacency, rows)
    ensures SearchOf(rows, adjacency, seeds, bound).Closed()
  {
    var search := SearchOf(rows, adjacency, seeds, bound);
    forall s | s in seeds ensures Entry(seeds[s], s) in search.attained {
      SeedReached(rows, seeds, s);
    }
    forall e, a | e in search.attained && a in Get(adjacency, e.node) ensures search.Follows(e, a) {
      ArcFollowed(rows, search, e, a);
    }
  }

  lemma ArcFollowed(rows: seq<EdgeRow>, search: Search, e: Entry, a: Arc)
    requires NonNegative(rows) && IsAdjacencyOf(search.adjacency, rows)
    requires search == SearchOf(rows, search.adjacency, search.seeds, search.bound)
    requires e in search.attained && a in Get(search.adjacency, e.node)
    ensures search.Follows(e, a)
  {
    assert Get(search.adjacency, e.node) == AdjacencyOf(rows, e.node);
    FollowArc(rows, search.seeds, e.node, e.d, a);
  }

  /** With an empty heap, every walk within the bound ends at a node settled at least as cheaply. */
  lemma {:induction false} SearchComplete(rows: seq<EdgeRow>, search: Search, dist: map<int, real>,
                                          s: int, w: seq<EdgeRow>, v: int)
    requires NonNegative(rows) && IsAdjacencyOf(search.adjacency, rows)
    requires search.Inv(dist, multiset{}, {})
    requires s in search.seeds && IsWalk(rows, s, w, v) && search.seeds[s] + WalkLength(w) <= search.bound
    ensures v in dist && dist[v] <= search.seeds[s] + WalkLength(w)
    decreases |w|
  {
    if w == [] {
      assert search.Covered(dist, multiset{}, s, search.seeds[s]);
    } else {
      var e, before := w[|w| - 1], w[..|w| - 1];
      var u := if e.to == v && IsWalk(rows, s, before, e.from) then e.from else e.to;
      SearchComplete(rows, search, dist, s, before, u);
      var a := Arc(v, e.length);
      AdjacencyMeaning(rows, u, a);
      assert search.Expanded(dist, multiset{}, Get(search.adjacency, u), dist[u]);
      assert search.Covered(dist, multiset{}, v, dist[u] + a.length);
    }
  }

  /** What the finished search knows about every node, from the loop invariant alone. */
  lemma SearchExact(rows: seq<EdgeRow>, search: Search, dist: map<int, real>)
    requires NonNegative(rows) && IsAdjacencyOf(search.adjacency, rows)
    requires search == SearchOf(rows, search.adjacency, search.seeds, search.bound)
    requires search.Inv(dist, multiset{}, {})
    ensures forall v, c :: Reached(rows, search.seeds, v, c) && c <= search.bound ==> v in dist && dist[v] <= c
    ensures forall v :: v in dist && dist[v] <= search.bound ==> IsCheapest(rows, search.seeds, v, dist[v])
    ensures forall v :: v in dist && dist[v] > search.bound ==> v in search.seeds && dist[v] == search.seeds[v]
  {
    forall v, c | Reached(rows, search.seeds, v, c) && c <= search.bound ensures v in dist && dist[v] <= c {
      var s, w :| ReachedBy(rows, search.seeds, s, w, v, c);
      SearchComplete(rows, search, dist, s, w, v);
    }
    forall v | v in dist ensures search.Sound(Entry(dist[v], v)) {}
  }

  // ---------- the search ----------

  /** The keys of dist in insertion order: each once, by non-decreasing distance. */
  ghost predicate InsertionOrder(order: seq<int>, dist: map<int, real>) {
    && (forall v :: v in order <==> v in dist)
    && (forall i, j :: 0 <= i < j < |order| ==> order[i] != order[j] && dist[order[i]] <= dist[order[j]])
  }

  lemma InsertLast(order: seq<int>, dist: map<int, real>, v: int, d: real)
    requires InsertionOrder(order, dist) && v !in dist && forall u :: u in dist ==> dist[u] <= d
    ensures InsertionOrder(order + [v], dist[v := d])
  {
    var longer, more := order + [v], dist[v := d];
    assert forall u :: u in longer <==> u in order || u == v;
    assert forall u :: u in more <==> u in dist || u == v;
    forall i | 0 <= i < |order| ensures order[i] in dist {
      assert order[i] in order;
    }
  }

  /** Distances from several seeds, expanded while they stay within the bound.

  A node whose cheapest cost is within the bound is settled at exactly that cost; a settled
  distance beyond the bound can only be a seed's own. `order` is the order of insertion into dist. */
  method BoundedDijkstra(graph: Graph, seeds: map<int, real>, bound: real)
    returns (dist: map<int, real>, order: seq<int>)
    requires graph.Valid() && NonNegative(graph.rows)
    ensures forall v, c :: Reached(graph.rows, seeds, v, c) && c <= bound ==> v in dist && dist[v] <= c
    ensures forall v :: v in dist && dist[v] <= bound ==> IsCheapest(graph.rows, seeds, v, dist[v])
    ensures forall v :: v in dist && dist[v] > bound ==> v in seeds && dist[v] == seeds[v]
    ensures InsertionOrder(order, dist)
  {
    ghost var search := SearchOf(graph.rows, graph.adjacency, seeds, bound);
    SearchIsClosed(graph.rows, graph.adjacency, seeds, bound);
    dist, order := RunSearch(search, graph.adjacency, seeds, bound);
    SearchExact(graph.rows, search, dist);
  }

  /** The loop itself: pop, skip a stale entry, settle, expand; until the heap is empty. */
  method RunSearch(ghost search: Search, adjacency: map<int, seq<Arc>>, seeds: map<int, real>, bound: real)
    returns (dist: map<int, real>, order: seq<int>)
    requires search.Closed() && search.adjacency == adjacency && search.seeds == seeds && search.bound == bound
    ensures search.Inv(dist, multiset{}, {}) && InsertionOrder(order, dist)
  {
    dist, order := map[], [];
    var heap := SeededHeap(seeds);
    assert forall s :: s in seeds ==> Entry(seeds[s], s) in EntriesOf(seeds, seeds.Keys);
    search.Start(heap.entries);
    while |heap.entries| > 0
      invariant fresh(heap)
      invariant search.Inv(dist, heap.entries, {}) && InsertionOrder(order, dist)
      decreases search.universe - dist.Keys, |heap.entries|
    {
      ghost var before := heap.entries;
      var top := heap.Pop();
      search.Pop(dist, before, top, if top.node in dist then dist else dist[top.node := top.d]);
      if top.node in dist {
        continue;
      }
      InsertLast(order, dist, top.node, top.d);
      dist, order := dist[top.node := top.d], order + [top.node];
      ExpandNode(search, Get(adjacency, top.node), bound, dist, top, heap);
    }
    assert heap.entries == multiset{};
  }

  /** The entries of the given seeds. */
  ghost function EntriesOf(seeds: map<int, real>, nodes: set<int>): set<Entry>
    requires nodes <= seeds.Keys
  {
    set s | s in nodes :: Entry(seeds[s], s)
  }

  /** The heap holds each seed exactly once, in whatever order the dictionary lists them. */
  method SeededHeap(seeds: map<int, real>) returns (heap: Heap)
    ensures fresh(heap) && heap.entries == multiset(EntriesOf(seeds, seeds.Keys))
  {
    heap := new Heap();
    var todo := seeds.Keys;
    assert seeds.Keys - todo == {};
    while todo != {}
      invariant fresh(heap) && todo <= seeds.Keys
      invariant heap.entries == multiset(EntriesOf(seeds, seeds.Keys - todo))
      decreases todo
    {
      ghost var present := SomeElement(todo);
      var s :| s in todo;
      OneSeedMore(seeds, seeds.Keys - todo, s);
      heap.Push(Entry(seeds[s], s));
      assert seeds.Keys - (todo - {s}) == seeds.Keys - todo + {s};
      todo := todo - {s};
    }
    assert seeds.Keys - todo == seeds.Keys;
  }

  lemma OneSeedMore(seeds: map<int, real>, done: set<int>, s: int)
    requires done <= seeds.Keys && s in seeds && s !in done
    ensures multiset(EntriesOf(seeds, done + {s})) == multiset(EntriesOf(seeds, done)) + multiset{Entry(seeds[s], s)}
  {
    assert EntriesOf(seeds, done + {s}) == EntriesOf(seeds, done) + {Entry(seeds[s], s)};
    assert Entry(seeds[s], s) !in EntriesOf(seeds, done);
  }

  /** The inner loop: queue every unsettled neighbour that stays within the bound, and nothing else. */
  method ExpandNode(ghost search: Search, arcs: seq<Arc>, bound: real, dist: map<int, real>, top: Entry, heap: Heap)
    requires search.Closed() && arcs == Get(search.adjacency, top.node) && bound == search.bound
    requires top.node in dist && dist[top.node] == top.d && forall v :: v in dist ==> dist[v] <= top.d
    requires search.Inv(dist, heap.entries, {top.node})
    modifies heap
    ensures heap.entries == old(heap.entries) + Pushes(dist, top, bound, arcs)
    ensures search.Inv(dist, heap.entries, {})
  {
    PushArcs(arcs, bound, dist, top, heap);
    search.Expand(dist, old(heap.entries), top);
  }

  method PushArcs(arcs: seq<Arc>, bound: real, dist: map<int, real>, top: Entry, heap: Heap)
    modifies heap
    ensures heap.entries == old(heap.entries) + Pushes(dist, top, bound, arcs)
  {
    ghost var before := heap.entries;
    for i := 0 to |arcs|
      invariant heap.entries == before + Pushes(dist, top, bound, arcs[..i])
    {
      TakeNext(arcs, i);
      PushesNext(dist, before, top, bound, arcs[..i], arcs[i]);
      PushArc(arcs[i], bound, dist, top, heap);
    }
    assert arcs[..|arcs|] == arcs;
  }

  method PushArc(a: Arc, bound: real, dist: map<int, real>, top: Entry, heap: Heap)
    modifies heap
    ensures heap.entries == old(heap.entries) + PushesOf(dist, top, bound, a)
  {
    var nd := top.d + a.length;
    if nd <= bound && a.node !in dist {
      heap.Push(Entry(nd, a.node));
    }
  }

  lemma TakeNext<T>(s: seq<T>, i: int)
    requires 0 <= i < |s|
    ensures s[..i + 1] == s[..i] + [s[i]]
  {
  }
}
