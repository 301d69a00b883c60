/** The road graph quality cleanup: five marking rules, the last of which keeps the giant component. */
module GraphCleanup {
  import opened Options
  import opened FiniteSets
  import opened RoadGraph

  datatype Geometry = Missing | Invalid | Sound

  datatype Reason = InvalidGeometry | ZeroOrNegativeLength | SelfLoop | SuspiciousLong | DisconnectedComponent

  /** A row of road_edges. */
  datatype RoadEdge = RoadEdge(id: int, from: int, to: int, length: real, walkable: bool, geometry: Geometry,
                               routable: bool, reason: Option<Reason>, checkedAt: int)

  const MAX_LENGTH := 5000.0

  // ---------- the statements ----------

  function Reset(rows: seq<RoadEdge>, now: int): (r: seq<RoadEdge>)
    ensures |r| == |rows|
  {
    seq(|rows|, i requires 0 <= i < |rows| => rows[i].(routable := true, reason := None, checkedAt := now))
  }

  function MarkRow(e: RoadEdge, condition: RoadEdge -> bool, why: Reason, now: int): RoadEdge {
    if e.routable && condition(e) then e.(routable := false, reason := Some(why), checkedAt := now) else e
  }

  /** UPDATE ... WHERE is_routable = true AND condition. */
  function Mark(rows: seq<RoadEdge>, condition: RoadEdge -> bool, why: Reason, now: int): (r: seq<RoadEdge>)
    ensures |r| == |rows|
  {
    seq(|rows|, i requires 0 <= i < |rows| => MarkRow(rows[i], condition, why, now))
  }

  predicate HasBadGeometry(e: RoadEdge) { e.geometry == Missing || e.geometry == Invalid }

  predicate HasNoLength(e: RoadEdge) { e.length <= 0.0 }

  predicate IsSelfLoop(e: RoadEdge) { e.from == e.to }

  predicate IsTooLong(e: RoadEdge) { e.length > MAX_LENGTH }

  predicate IsOutside(labels: map<int, int>, giant: int, e: RoadEdge) {
    e.from in labels && labels[e.from] != giant
  }

  function RowOf(e: RoadEdge): EdgeRow {
    EdgeRow(e.id, e.from, e.to, e.length)
  }

  /** routable_road_edges: the walkable and routable rows. */
  function View(rows: seq<RoadEdge>): seq<EdgeRow> {
    if rows == [] then []
    else
      var before, e := View(rows[..|rows| - 1]), rows[|rows| - 1];
      if e.walkable && e.routable then before + [RowOf(e)] else before
  }

  // ---------- the component engine's contract ----------

  ghost predicate IsEndpoint(edges: seq<EdgeRow>, node: int) {
    exists e :: e in edges && (node == e.from || node == e.to)
  }

  /** Nodes of the surviving graph get equal labels exactly when a walk joins them. */
  ghost predicate IsLabelling(edges: seq<EdgeRow>, labels: map<int, int>) {
    && (forall v :: v in labels <==> IsEndpoint(edges, v))
    && (forall u, v :: u in labels && v in labels ==> (labels[u] == labels[v] <==> Connected(edges, u, v)))
  }

  function Members(labels: map<int, int>, component: int): set<int> {
    set v | v in labels && labels[v] == component
  }

  /** A component with the most nodes; the choice among equally large ones is the engine's, but it is a function. */
  ghost predicate IsGiant(labels: map<int, int>, giant: int) {
    giant in labels.Values && forall c :: |Members(labels, c)| <= |Members(labels, giant)|
  }

  ghost predicate IsEngine(components: seq<EdgeRow> -> map<int, int>, pick: map<int, int> -> int) {
    && (forall edges :: IsLabelling(edges, components(edges)))
    && (forall l: map<int, int> :: l != map[] ==> IsGiant(l, pick(l)))
  }

  ghost function Endpoints(edges: seq<EdgeRow>): set<int> {
    (set e | e in edges :: e.from) + (set e | e in edges :: e.to)
  }

  /** The least node joined to v, which is how pgRouting names a component. */
  ghost predicate IsLeastJoined(edges: seq<EdgeRow>, v: int, least: int) {
    least in Endpoints(edges) && Connected(edges, v, least) &&
    forall u :: u in Endpoints(edges) && Connected(edges, v, u) ==> least <= u
  }

  lemma LeastJoinedExists(edges: seq<EdgeRow>, v: int)
    requires v in Endpoints(edges)
    ensures exists least :: IsLeastJoined(edges, v, least)
  {
    assert IsWalk(edges, v, [], v);
    var joined := set u | u in Endpoints(edges) && Connected(edges, v, u);
    assert v in joined;
    var least := LeastOf(joined);
    forall u | u in Endpoints(edges) && Connected(edges, v, u) ensures least <= u {
      assert u in joined;
    }
    assert IsLeastJoined(edges, v, least);
  }

  ghost function LeastJoined(edges: seq<EdgeRow>, v: int): int
    requires v in Endpoints(edges)
    ensures IsLeastJoined(edges, v, LeastJoined(edges, v))
  {
    LeastJoinedExists(edges, v);
    var least :| IsLeastJoined(edges, v, least);
    least
  }

  ghost function LeastLabels(edges: seq<EdgeRow>): map<int, int> {
    map v | v in Endpoints(edges) :: LeastJoined(edges, v)
  }

  /** The contract asked of pgr_connectedComponents can be met: naming each component by its least node meets it. */
  lemma LeastLabelsMeetContract(edges: seq<EdgeRow>)
    ensures IsLabelling(edges, LeastLabels(edges))
  {
    var labels := LeastLabels(edges);
    forall u, v | u in labels && v in labels ensures labels[u] == labels[v] <==> Connected(edges, u, v) {
      if labels[u] == labels[v] {
        ConnectedSymmetric(edges, v, labels[v]);
        ConnectedTransitive(edges, u, labels[u], v);
      }
      if Connected(edges, u, v) {
        ConnectedSymmetric(edges, u, v);
        ConnectedTransitive(edges, u, v, labels[v]);
        ConnectedTransitive(edges, v, u, labels[u]);
      }
    }
  }

  lemma {:induction false} LargestComponent(labels: map<int, int>, candidates: set<int>) returns (largest: int)
    requires candidates != {}
    ensures largest in candidates && forall c :: c in candidates ==> |Members(labels, c)| <= |Members(labels, largest)|
    decreases |candidates|
  {
    largest := SomeElement(candidates);
    var rest := candidates - {largest};
    if rest != {} {
      var other := LargestComponent(labels, rest);
      forall c | c in candidates ensures c == largest || |Members(labels, c)| <= |Members(labels, other)| {
        assert c == largest || c in rest;
      }
      if |Members(labels, largest)| < |Members(labels, other)| { largest := other; }
    } else {
      forall c | c in candidates ensures c == largest { assert c !in rest; }
    }
  }

  /** So can the contract asked of the largest-first choice: every non-empty labelling has a giant component. */
  lemma GiantExists(labels: map<int, int>) returns (giant: int)
    requires labels != map[]
    ensures IsGiant(labels, giant)
  {
    var v := SomeElement(labels.Keys);
    assert labels[v] in labels.Values;
    giant := LargestComponent(labels, labels.Values);
    forall c ensures |Members(labels, c)| <= |Members(labels, giant)| {
      if c !in labels.Values {
        assert Members(labels, c) == {};
      }
    }
  }

  // ---------- the whole script ----------

  function MarkedByShape(rows: seq<RoadEdge>, now: int): (r: seq<RoadEdge>)
    ensures |r| == |rows|
  {
    var r1 := Mark(Reset(rows, now), HasBadGeometry, InvalidGeometry, now);
    var r2 := Mark(r1, HasNoLength, ZeroOrNegativeLength, now);
    var r3 := Mark(r2, IsSelfLoop, SelfLoop, now);
    Mark(r3, IsTooLong, SuspiciousLong, now)
  }

  /** Rule 5; an empty surviving graph has no components and nothing is touched. */
  function KeepGiant(rows: seq<RoadEdge>, labels: map<int, int>, giant: int, now: int): (r: seq<RoadEdge>)
    ensures |r| == |rows|
  {
    Mark(rows, e => IsOutside(labels, giant, e), DisconnectedComponent, now)
  }

  function Cleaned(rows: seq<RoadEdge>, components: seq<EdgeRow> -> map<int, int>, pick: map<int, int> -> int, now: int): seq<RoadEdge> {
    var marked := MarkedByShape(rows, now);
    var l := components(View(marked));
    KeepGiant(marked, l, pick(l), now)
  }

  class RoadEdges {
    var rows: seq<RoadEdge>

    method UpdateWhere(condition: RoadEdge -> bool, why: Reason, now: int)
      modifies this
      ensures rows == Mark(old(rows), condition, why, now)
    {
      rows := Mark(rows, condition, why, now);
    }

    /** One transaction; `components` and `pick` stand for pgr_connectedComponents and the largest-first choice. */
    method Cleanup(components: seq<EdgeRow> -> map<int, int>, pick: map<int, int> -> int, now: int)
      modifies this
      ensures rows == Cleaned(old(rows), components, pick, now)
    {
      rows := Reset(rows, now);
      UpdateWhere(HasBadGeometry, InvalidGeometry, now);
      UpdateWhere(HasNoLength, ZeroOrNegativeLength, now);
      UpdateWhere(IsSelfLoop, SelfLoop, now);
      UpdateWhere(IsTooLong, SuspiciousLong, now);
      var labels := components(View(rows));
      var giant := pick(labels);
      UpdateWhere(e => IsOutside(labels, giant, e), DisconnectedComponent, now);
    }
  }

  // ---------- which rule excludes which edge ----------

  /** Rules 1 to 4 on the columns of an edge: the reason it is excluded for, if any. */
  function FirstRule(e: RoadEdge): Option<Reason> {
    if e.geometry != Sound then Some(InvalidGeometry)
    else if e.length <= 0.0 then Some(ZeroOrNegativeLength)
    else if e.from == e.to then Some(SelfLoop)
    else if e.length > 5000.0 then Some(SuspiciousLong)
    else None
  }

  /** The edge passes rules 1 to 4. */
  predicate IsFit(e: RoadEdge) {
    e.geometry == Sound && 0.0 < e.length <= 5000.0 && e.from != e.to
  }

  /** The imported columns, which no statement writes. */
  predicate SameImport(a: RoadEdge, b: RoadEdge) {
    a == b.(routable := a.routable, reason := a.reason, checkedAt := a.checkedAt)
  }

  lemma ShapeRules(rows: seq<RoadEdge>, now: int, i: int)
    requires 0 <= i < |rows|
    ensures var e := MarkedByShape(rows, now)[i];
            && SameImport(e, rows[i]) && e.reason == FirstRule(rows[i]) && e.checkedAt == now
            && (e.routable <==> e.reason.None?) && (e.routable <==> IsFit(rows[i]))
  {
  }

  /** No row is lost, no imported column changes, and every row carries the first rule it matched, whatever
  quality state an earlier run left behind. */
  lemma FirstMatchingRuleWins(rows: seq<RoadEdge>, components: seq<EdgeRow> -> map<int, int>, pick: map<int, int> -> int, now: int)
    ensures var out := Cleaned(rows, components, pick, now);
            var l := components(View(MarkedByShape(rows, now)));
            && |out| == |rows|
            && forall i :: 0 <= i < |rows| ==>
                 && SameImport(out[i], rows[i]) && out[i].checkedAt == now
                 && (out[i].routable <==> out[i].reason.None?)
                 && out[i].reason == (if FirstRule(rows[i]).Some? then FirstRule(rows[i])
                                      else if rows[i].from in l && l[rows[i].from] != pick(l) then Some(DisconnectedComponent)
                                      else None)
                 && (out[i].routable <==> IsFit(rows[i]) && !(rows[i].from in l && l[rows[i].from] != pick(l)))
  {
    forall i | 0 <= i < |rows| {
      ShapeRules(rows, now, i);
    }
  }

  /** Rerunning gives the same state, but for the time of the last check. */
  lemma CleanupIdempotent(rows: seq<RoadEdge>, components: seq<EdgeRow> -> map<int, int>, pick: map<int, int> -> int, t1: int, t2: int)
    ensures Cleaned(Cleaned(rows, components, pick, t1), components, pick, t2) == Cleaned(rows, components, pick, t2)
  {
    FirstMatchingRuleWins(rows, components, pick, t1);
    assert Reset(Cleaned(rows, components, pick, t1), t2) == Reset(rows, t2);
  }

  // ---------- one connected graph remains ----------

  lemma {:induction false} ViewMembers(rows: seq<RoadEdge>, x: EdgeRow)
    ensures x in View(rows) <==>
            exists i :: 0 <= i < |rows| && rows[i].walkable && rows[i].routable &&
                        x == EdgeRow(rows[i].id, rows[i].from, rows[i].to, rows[i].length)
  {
    if rows != [] {
      var before, e := rows[..|rows| - 1], rows[|rows| - 1];
      ViewMembers(before, x);
      assert forall i :: 0 <= i < |before| ==> before[i] == rows[i];
      if i :| 0 <= i < |rows| && rows[i].walkable && rows[i].routable && RowOf(rows[i]) == x {
        if i < |before| { assert before[i] == rows[i]; }
      }
    }
  }

  /** Rule 5 keeps exactly the surviving edges that start in the giant component. */
  lemma GiantView(rows: seq<RoadEdge>, labels: map<int, int>, giant: int, now: int, x: EdgeRow)
    requires IsLabelling(View(rows), labels)
    ensures x in View(KeepGiant(rows, labels, giant, now)) <==> x in View(rows) && x.from in labels && labels[x.from] == giant
  {
    var kept := KeepGiant(rows, labels, giant, now);
    ViewMembers(rows, x);
    ViewMembers(kept, x);
    if i :| 0 <= i < |rows| && rows[i].walkable && rows[i].routable && RowOf(rows[i]) == x {
      assert IsEndpoint(View(rows), x.from);
      if labels[x.from] == giant { assert kept[i] == rows[i]; }
    }
    if i :| 0 <= i < |kept| && kept[i].walkable && kept[i].routable && RowOf(kept[i]) == x {
      assert kept[i] == rows[i] && rows[i].routable;
    }
  }

  /** A walk that starts in the giant component never leaves it, so it survives rule 5 edge by edge. */
  lemma {:induction false} WalkSurvives(edges: seq<EdgeRow>, labels: map<int, int>, giant: int, kept: seq<EdgeRow>,
                                        a: int, w: seq<EdgeRow>, b: int)
    requires IsLabelling(edges, labels) && a in labels && labels[a] == giant
    requires forall x :: x in edges && x.from in labels && labels[x.from] == giant ==> x in kept
    requires IsWalk(edges, a, w, b)
    ensures IsWalk(kept, a, w, b)
    decreases |w|
  {
    if w != [] {
      var e, before := w[|w| - 1], w[..|w| - 1];
      var c := if e.to == b && IsWalk(edges, a, before, e.from) then e.from else e.to;
      WalkSurvives(edges, labels, giant, kept, a, before, c);
      assert Connected(edges, a, c);
      assert IsEndpoint(edges, e.from) && IsEndpoint(edges, c);
      OneStep(edges, e);
      assert labels[c] == giant && labels[e.from] == labels[c];
    }
  }

  lemma OneStep(edges: seq<EdgeRow>, e: EdgeRow)
    requires e in edges
    ensures Connected(edges, e.from, e.to) && Connected(edges, e.to, e.from) && Connected(edges, e.from, e.from)
  {
    assert IsWalk(edges, e.from, [], e.from);
    ExtendWalk(edges, e.from, [], e.from, e, e.to);
    ConnectedSymmetric(edges, e.from, e.to);
  }

  /** The nodes of the routable surface are exactly the giant component. */
  lemma SurfaceIsGiant(rows: seq<RoadEdge>, labels: map<int, int>, giant: int, now: int, v: int)
    requires IsLabelling(View(rows), labels)
    ensures IsEndpoint(View(KeepGiant(rows, labels, giant, now)), v) <==> v in Members(labels, giant)
  {
    var edges, kept := View(rows), View(KeepGiant(rows, labels, giant, now));
    if e :| e in kept && (v == e.from || v == e.to) {
      GiantView(rows, labels, giant, now, e);
      OneStep(edges, e);
      assert IsEndpoint(edges, v);
    }
    if v in Members(labels, giant) {
      assert IsEndpoint(edges, v);
      var e :| e in edges && (v == e.from || v == e.to);
      OneStep(edges, e);
      assert IsEndpoint(edges, e.from);
      GiantView(rows, labels, giant, now, e);
    }
  }

  /** After the cleanup any two nodes of the routable surface are joined by a walk over surviving edges only,
  and no connected part of the surface that entered rule 5 has more nodes. */
  lemma CleanupLeavesOneGraph(rows: seq<RoadEdge>, components: seq<EdgeRow> -> map<int, int>, pick: map<int, int> -> int, now: int,
                              u: int, v: int)
    requires IsEngine(components, pick)
    requires IsEndpoint(View(Cleaned(rows, components, pick, now)), u) && IsEndpoint(View(Cleaned(rows, components, pick, now)), v)
    ensures Connected(View(Cleaned(rows, components, pick, now)), u, v)
  {
    var marked := MarkedByShape(rows, now);
    var edges := View(marked);
    var l := components(edges);
    var giant := pick(l);
    var kept := View(KeepGiant(marked, l, giant, now));
    assert IsLabelling(edges, l);
    SurfaceIsGiant(marked, l, giant, now, u);
    SurfaceIsGiant(marked, l, giant, now, v);
    var w :| IsWalk(edges, u, w, v);
    forall x | x in edges && x.from in l && l[x.from] == giant ensures x in kept {
      GiantView(marked, l, giant, now, x);
    }
    WalkSurvives(edges, l, giant, kept, u, w, v);
  }

  /** The surface keeps as many nodes as any component of the graph that survived rules 1 to 4. */
  lemma KeepsTheLargest(rows: seq<RoadEdge>, components: seq<EdgeRow> -> map<int, int>, pick: map<int, int> -> int, now: int, c: int)
    requires IsEngine(components, pick) && View(MarkedByShape(rows, now)) != []
    ensures var l := components(View(MarkedByShape(rows, now)));
            && |Members(l, c)| <= |Members(l, pick(l))|
            && forall v :: v in Members(l, pick(l)) <==> IsEndpoint(View(Cleaned(rows, components, pick, now)), v)
  {
    var marked := MarkedByShape(rows, now);
    var edges := View(marked);
    var l := components(edges);
    assert edges[0] in edges;
    assert IsEndpoint(edges, edges[0].from);
    assert IsLabelling(edges, l);
    assert edges[0].from in l;
    assert IsGiant(l, pick(l));
    forall v ensures v in Members(l, pick(l)) <==> IsEndpoint(View(Cleaned(rows, components, pick, now)), v) {
      SurfaceIsGiant(marked, l, pick(l), now, v);
    }
  }

  // ---------- what the surface promises to its readers ----------

  ghost predicate DistinctEdgeIds(rows: seq<RoadEdge>) {
    forall i, j :: 0 <= i < j < |rows| ==> rows[i].id != rows[j].id
  }

  lemma {:induction false} ViewKeepsIds(rows: seq<RoadEdge>)
    requires DistinctEdgeIds(rows)
    ensures DistinctIds(View(rows))
  {
    if rows != [] {
      var before := rows[..|rows| - 1];
      ViewKeepsIds(before);
      forall k | 0 <= k < |View(before)| ensures View(before)[k].id != rows[|rows| - 1].id {
        ViewMembers(before, View(before)[k]);
        assert View(before)[k] in View(before);
      }
    }
  }

  /** The routable surface has no self-loops, every length lies in (0, 5000], and edge ids stay unique: what the
  search, the routing costs and the aggregation assume of their rows. */
  lemma SurfaceIsSound(rows: seq<RoadEdge>, components: seq<EdgeRow> -> map<int, int>, pick: map<int, int> -> int, now: int)
    ensures forall x :: x in View(Cleaned(rows, components, pick, now)) ==> 0.0 < x.length <= 5000.0 && x.from != x.to
    ensures NonNegative(View(Cleaned(rows, components, pick, now)))
    ensures DistinctEdgeIds(rows) ==> DistinctIds(View(Cleaned(rows, components, pick, now)))
  {
    var out := Cleaned(rows, components, pick, now);
    FirstMatchingRuleWins(rows, components, pick, now);
    forall x | x in View(out) ensures 0.0 < x.length <= 5000.0 && x.from != x.to {
      ViewMembers(out, x);
      var i :| 0 <= i < |out| && out[i].walkable && out[i].routable && RowOf(out[i]) == x;
      assert out[i].reason.None? && FirstRule(rows[i]).None?;
    }
    if DistinctEdgeIds(rows) {
      assert forall i :: 0 <= i < |rows| ==> out[i].id == rows[i].id;
      ViewKeepsIds(out);
    }
  }

  // ---------- snapping ----------

  /** The nearer endpoint of the nearest edge; ties go to the edge's first node. */
  function SnapNode(e: EdgeRow, distance: int -> real): int {
    if distance(e.from) <= distance(e.to) then e.from else e.to
  }

  /** The snapped node is an end of the edge, and the other end is no nearer; at equal distances it is the first. */
  lemma SnapsToNearerEnd(e: EdgeRow, distance: int -> real)
    ensures SnapNode(e, distance) in {e.from, e.to}
    ensures distance(SnapNode(e, distance)) <= distance(e.from) && distance(SnapNode(e, distance)) <= distance(e.to)
    ensures distance(e.from) == distance(e.to) ==> SnapNode(e, distance) == e.from
  {
  }

  /** Wherever two points snap on the cleaned graph, a route over surviving edges joins the nodes; it is empty only when they are the same node. */
  lemma SnappedNodesHaveRoute(rows: seq<RoadEdge>, components: seq<EdgeRow> -> map<int, int>, pick: map<int, int> -> int, now: int,
                              origin: EdgeRow, fromOrigin: int -> real, dest: EdgeRow, fromDest: int -> real)
    requires IsEngine(components, pick)
    requires origin in View(Cleaned(rows, components, pick, now)) && dest in View(Cleaned(rows, components, pick, now))
    ensures exists w :: IsWalk(View(Cleaned(rows, components, pick, now)), SnapNode(origin, fromOrigin), w, SnapNode(dest, fromDest)) &&
                        (SnapNode(origin, fromOrigin) != SnapNode(dest, fromDest) ==> w != [])
  {
    var edges := View(Cleaned(rows, components, pick, now));
    var u, v := SnapNode(origin, fromOrigin), SnapNode(dest, fromDest);
    assert IsEndpoint(edges, u) && IsEndpoint(edges, v);
    CleanupLeavesOneGraph(rows, components, pick, now, u, v);
    var w :| IsWalk(edges, u, w, v);
  }
}
