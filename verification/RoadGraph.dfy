/** The walkable road graph: edge rows, the adjacency and incident lists built from them, and walks.

A walk is a sequence of edge rows, each crossed in either direction. It is the
reference notion for the whole project: neighbourhood distances, routing costs
and graph connectivity are all stated over walks, never over adjacency lists. */
module RoadGraph {

  /** A row of routable_road_edges, as the offline pipeline reads it. */
  datatype EdgeRow = EdgeRow(id: int, from: int, to: int, length: real)

  /** An adjacency entry: the neighbouring node and the length of the edge leading to it. */
  datatype Arc = Arc(node: int, length: real)

  ghost predicate NonNegative(rows: seq<EdgeRow>) {
    forall e :: e in rows ==> e.length >= 0.0
  }

  /** Edge ids are the primary key of road_edges. */
  ghost predicate DistinctIds(rows: seq<EdgeRow>) {
    forall i, j :: 0 <= i < j < |rows| ==> rows[i].id != rows[j].id
  }

  // ---------- walks ----------

  /** w leads from a to b; every edge of w is a row and is crossed in one of its two directions. */
  ghost predicate IsWalk(rows: seq<EdgeRow>, a: int, w: seq<EdgeRow>, b: int) {
    if w == [] then a == b
    else
      var e, before := w[|w| - 1], w[..|w| - 1];
      && e in rows
      && ((e.to == b && IsWalk(rows, a, before, e.from)) || (e.from == b && IsWalk(rows, a, before, e.to)))
  }

  function WalkLength(w: seq<EdgeRow>): real {
    if w == [] then 0.0 else WalkLength(w[..|w| - 1]) + w[|w| - 1].length
  }

  ghost predicate Connected(rows: seq<EdgeRow>, a: int, b: int) {
    exists w :: IsWalk(rows, a, w, b)
  }

  lemma {:induction false} WalkLengthNonNegative(rows: seq<EdgeRow>, a: int, w: seq<EdgeRow>, b: int)
    requires NonNegative(rows) && IsWalk(rows, a, w, b)
    ensures WalkLength(w) >= 0.0
  {
    if w != [] {
      var e := w[|w| - 1];
      var c := if e.to == b && IsWalk(rows, a, w[..|w| - 1], e.from) then e.from else e.to;
      WalkLengthNonNegative(rows, a, w[..|w| - 1], c);
    }
  }

  /** One more edge at the end of a walk. */
  lemma ExtendWalk(rows: seq<EdgeRow>, a: int, w: seq<EdgeRow>, b: int, e: EdgeRow, c: int)
    requires IsWalk(rows, a, w, b) && e in rows
    requires (e.from == b && e.to == c) || (e.to == b && e.from == c)
    ensures IsWalk(rows, a, w + [e], c)
    ensures WalkLength(w + [e]) == WalkLength(w) + e.length
  {
  }

  lemma {:induction false} JoinWalks(rows: seq<EdgeRow>, a: int, w1: seq<EdgeRow>, b: int, w2: seq<EdgeRow>, c: int)
    requires IsWalk(rows, a, w1, b) && IsWalk(rows, b, w2, c)
    ensures IsWalk(rows, a, w1 + w2, c)
    ensures WalkLength(w1 + w2) == WalkLength(w1) + WalkLength(w2)
    decreases |w2|
  {
    if w2 == [] {
      assert w1 + w2 == w1;
    } else {
      var e, before := w2[|w2| - 1], w2[..|w2| - 1];
      var m := if e.to == c && IsWalk(rows, b, before, e.from) then e.from else e.to;
      JoinWalks(rows, a, w1, b, before, m);
      ExtendWalk(rows, a, w1 + before, m, e, c);
      assert w1 + before + [e] == w1 + w2;
    }
  }

  function Reversed(w: seq<EdgeRow>): (r: seq<EdgeRow>) {
    if w == [] then [] else [w[|w| - 1]] + Reversed(w[..|w| - 1])
  }

  /** Edges have no direction: a walk read backwards is a walk of the same length. */
  lemma {:induction false} ReverseWalk(rows: seq<EdgeRow>, a: int, w: seq<EdgeRow>, b: int)
    requires IsWalk(rows, a, w, b)
    ensures IsWalk(rows, b, Reversed(w), a)
    ensures WalkLength(Reversed(w)) == WalkLength(w)
    decreases |w|
  {
    if w != [] {
      var e, before := w[|w| - 1], w[..|w| - 1];
      var m := if e.to == b && IsWalk(rows, a, before, e.from) then e.from else e.to;
      ReverseWalk(rows, a, before, m);
      assert IsWalk(rows, b, [], b);
      ExtendWalk(rows, b, [], b, e, m);
      assert [] + [e] == [e];
      JoinWalks(rows, b, [e], m, Reversed(before), a);
    }
  }

  lemma ConnectedSymmetric(rows: seq<EdgeRow>, a: int, b: int)
    requires Connected(rows, a, b)
    ensures Connected(rows, b, a)
  {
    var w :| IsWalk(rows, a, w, b);
    ReverseWalk(rows, a, w, b);
  }

  lemma ConnectedTransitive(rows: seq<EdgeRow>, a: int, b: int, c: int)
    requires Connected(rows, a, b) && Connected(rows, b, c)
    ensures Connected(rows, a, c)
  {
    var w1 :| IsWalk(rows, a, w1, b);
    var w2 :| IsWalk(rows, b, w2, c);
    JoinWalks(rows, a, w1, b, w2, c);
  }

  // ---------- the lists the pipeline walks over ----------

  function ArcsOf(e: EdgeRow, node: int): seq<Arc> {
    (if e.from == node then [Arc(e.to, e.length)] else []) + (if e.to == node then [Arc(e.from, e.length)] else [])
  }

  function AdjacencyOf(rows: seq<EdgeRow>, node: int): seq<Arc> {
    if rows == [] then [] else AdjacencyOf(rows[..|rows| - 1], node) + ArcsOf(rows[|rows| - 1], node)
  }

  function TouchesOf(e: EdgeRow, node: int): seq<int> {
    (if e.from == node then [e.id] else []) + (if e.to == node then [e.id] else [])
  }

  function IncidentOf(rows: seq<EdgeRow>, node: int): seq<int> {
    if rows == [] then [] else IncidentOf(rows[..|rows| - 1], node) + TouchesOf(rows[|rows| - 1], node)
  }

  /** The adjacency lists hold exactly the crossings of edges, in both directions. */
  lemma {:induction false} AdjacencyMeaning(rows: seq<EdgeRow>, node: int, arc: Arc)
    ensures arc in AdjacencyOf(rows, node) <==>
            exists e :: e in rows && e.length == arc.length &&
                        ((e.from == node && e.to == arc.node) || (e.to == node && e.from == arc.node))
  {
    if rows != [] {
      var last, before := rows[|rows| - 1], rows[..|rows| - 1];
      AdjacencyMeaning(before, node, arc);
      assert rows == before + [last];
      assert last in rows;
      assert arc in ArcsOf(last, node) <==>
             last.length == arc.length &&
             ((last.from == node && last.to == arc.node) || (last.to == node && last.from == arc.node));
    }
  }

  /** The incident list of a node names exactly the edges with that endpoint. */
  lemma {:induction false} IncidentMeaning(rows: seq<EdgeRow>, node: int, id: int)
    ensures id in IncidentOf(rows, node) <==> exists e :: e in rows && e.id == id && (e.from == node || e.to == node)
  {
    if rows != [] {
      var last, before := rows[|rows| - 1], rows[..|rows| - 1];
      IncidentMeaning(before, node, id);
      assert rows == before + [last];
      assert last in rows;
    }
  }

  /** The dictionary of edges: one entry per row, under the row's id. */
  ghost predicate IsIndexOf(edges: map<int, EdgeRow>, rows: seq<EdgeRow>) {
    && DistinctIds(rows)
    && (forall e :: e in rows ==> e.id in edges && edges[e.id] == e)
    && (forall id :: id in edges ==> edges[id] in rows && edges[id].id == id)
  }

  lemma IndexAppend(edges: map<int, EdgeRow>, rows: seq<EdgeRow>, e: EdgeRow)
    requires IsIndexOf(edges, rows) && e.id !in edges
    ensures IsIndexOf(edges[e.id := e], rows + [e])
  {
  }

  /** A missing key of a defaultdict(list) reads as the empty list. */
  function Get<T>(lists: map<int, seq<T>>, node: int): seq<T> {
    if node in lists then lists[node] else []
  }

  ghost predicate IsAdjacencyOf(adjacency: map<int, seq<Arc>>, rows: seq<EdgeRow>) {
    forall node :: Get(adjacency, node) == AdjacencyOf(rows, node)
  }

  ghost predicate IsIncidenceOf(incident: map<int, seq<int>>, rows: seq<EdgeRow>) {
    forall node :: Get(incident, node) == IncidentOf(rows, node)
  }

  function Append<T>(lists: map<int, seq<T>>, node: int, x: T): map<int, seq<T>> {
    lists[node := Get(lists, node) + [x]]
  }

  lemma GetAppended<T>(lists: map<int, seq<T>>, a: int, x: T, b: int, y: T, node: int)
    ensures Get(Append(Append(lists, a, x), b, y), node) ==
            Get(lists, node) + ((if a == node then [x] else []) + (if b == node then [y] else []))
  {
  }

  lemma AdjacencyAppend(adjacency: map<int, seq<Arc>>, rows: seq<EdgeRow>, e: EdgeRow)
    requires IsAdjacencyOf(adjacency, rows)
    ensures IsAdjacencyOf(Append(Append(adjacency, e.from, Arc(e.to, e.length)), e.to, Arc(e.from, e.length)), rows + [e])
  {
    var after := Append(Append(adjacency, e.from, Arc(e.to, e.length)), e.to, Arc(e.from, e.length));
    forall node ensures Get(after, node) == AdjacencyOf(rows + [e], node) {
      GetAppended(adjacency, e.from, Arc(e.to, e.length), e.to, Arc(e.from, e.length), node);
      assert (rows + [e])[..|rows|] == rows;
    }
  }

  lemma IncidenceAppend(incident: map<int, seq<int>>, rows: seq<EdgeRow>, e: EdgeRow)
    requires IsIncidenceOf(incident, rows)
    ensures IsIncidenceOf(Append(Append(incident, e.from, e.id), e.to, e.id), rows + [e])
  {
    var after := Append(Append(incident, e.from, e.id), e.to, e.id);
    forall node ensures Get(after, node) == IncidentOf(rows + [e], node) {
      GetAppended(incident, e.from, e.id, e.to, e.id, node);
      assert (rows + [e])[..|rows|] == rows;
    }
  }

  lemma StepKeepsLists(edges: map<int, EdgeRow>, adjacency: map<int, seq<Arc>>, incident: map<int, seq<int>>,
                       rows: seq<EdgeRow>, e: EdgeRow)
    ensures IsIndexOf(edges, rows) && e.id !in edges ==> IsIndexOf(edges[e.id := e], rows + [e])
    ensures IsAdjacencyOf(adjacency, rows) ==>
      IsAdjacencyOf(Append(Append(adjacency, e.from, Arc(e.to, e.length)), e.to, Arc(e.from, e.length)), rows + [e])
    ensures IsIncidenceOf(incident, rows) ==>
      IsIncidenceOf(Append(Append(incident, e.from, e.id), e.to, e.id), rows + [e])
  {
    if IsIndexOf(edges, rows) && e.id !in edges { IndexAppend(edges, rows, e); }
    if IsAdjacencyOf(adjacency, rows) { AdjacencyAppend(adjacency, rows, e); }
    if IsIncidenceOf(incident, rows) { IncidenceAppend(incident, rows, e); }
  }

  /** The undirected walking graph. */
  class Graph {
    ghost var rows: seq<EdgeRow>
    var edges: map<int, EdgeRow>
    var adjacency: map<int, seq<Arc>>
    var incident: map<int, seq<int>>

    ghost predicate Valid()
      reads this
    {
      IsIndexOf(edges, rows) && IsAdjacencyOf(adjacency, rows) && IsIncidenceOf(incident, rows)
    }

    constructor (edgeRows: seq<EdgeRow>)
      requires DistinctIds(edgeRows)
      ensures Valid() && rows == edgeRows
    {
      rows, edges, adjacency, incident := [], map[], map[], map[];
      new;
      for i := 0 to |edgeRows|
        invariant rows == edgeRows[..i] && IsIndexOf(edges, rows)
        invariant IsAdjacencyOf(adjacency, rows)
        invariant IsIncidenceOf(incident, rows)
      {
        assert edgeRows[i].id !in edges by {
          assert forall id :: id in edges ==> id == edges[id].id && edges[id] in edgeRows[..i];
        }
        assert edgeRows[..i + 1] == rows + [edgeRows[i]];
        AddEdge(edgeRows[i]);
      }
      assert edgeRows[..|edgeRows|] == edgeRows;
    }

    /** One turn of the constructor's loop. */
    method AddEdge(e: EdgeRow)
      modifies this
      ensures rows == old(rows) + [e] && edges == old(edges)[e.id := e]
      ensures IsIndexOf(old(edges), old(rows)) && e.id !in old(edges) ==> IsIndexOf(edges, rows)
      ensures IsAdjacencyOf(old(adjacency), old(rows)) ==> IsAdjacencyOf(adjacency, rows)
      ensures IsIncidenceOf(old(incident), old(rows)) ==> IsIncidenceOf(incident, rows)
    {
      edges := edges[e.id := e];
      adjacency := Append(adjacency, e.from, Arc(e.to, e.length));
      adjacency := Append(adjacency, e.to, Arc(e.from, e.length));
      incident := Append(incident, e.from, e.id);
      incident := Append(incident, e.to, e.id);
      rows := rows + [e];
      StepKeepsLists(old(edges), old(adjacency), old(incident), old(rows), e);
    }
  }
}
