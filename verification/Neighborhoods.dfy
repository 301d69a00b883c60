/** Which edges are reachable from each edge within a walking bandwidth, and how the rows reach the table. */
module Neighborhoods {
  import opened Arithmetic
  import opened FiniteSets
  import opened RoadGraph
  import opened BoundedSearch

  /** A row of edge_network_neighborhoods, before its distance is printed with three decimals. */
  datatype Row = Row(graphVersion: int, source: int, target: int, bandwidth: real, distance: real)

  // ---------- the specification: midpoint-to-midpoint network distance ----------

  ghost predicate HasEnd(e: EdgeRow, node: int) {
    node == e.from || node == e.to
  }

  /** Some walk leads from an end of s to an end of t, and half of each edge is added to it. */
  ghost predicate Joined(rows: seq<EdgeRow>, s: EdgeRow, t: EdgeRow, c: real) {
    exists a, b, w :: JoinedBy(rows, s, t, a, b, w, c)
  }

  ghost predicate JoinedBy(rows: seq<EdgeRow>, s: EdgeRow, t: EdgeRow, a: int, b: int, w: seq<EdgeRow>, c: real) {
    HasEnd(s, a) && HasEnd(t, b) && IsWalk(rows, a, w, b) && c == s.length / 2.0 + WalkLength(w) + t.length / 2.0
  }

  ghost predicate IsEdgeDistance(rows: seq<EdgeRow>, s: EdgeRow, t: EdgeRow, c: real) {
    Joined(rows, s, t, c) && forall other :: Joined(rows, s, t, other) ==> c <= other
  }

  /** t is stored for s at distance d: itself at 0, any other edge at its network distance within the bandwidth. */
  ghost predicate IsNeighbor(rows: seq<EdgeRow>, bandwidth: real, s: EdgeRow, t: EdgeRow, d: real) {
    if s.id == t.id then d == 0.0 else d <= bandwidth && IsEdgeDistance(rows, s, t, d)
  }

  // ---------- deciding one target ----------

  /** What the bounded search promises about its distances. */
  ghost predicate IsSearchResult(rows: seq<EdgeRow>, seeds: map<int, real>, bound: real, dist: map<int, real>) {
    && (forall v, c :: Reached(rows, seeds, v, c) && c <= bound ==> v in dist && dist[v] <= c)
    && (forall v :: v in dist && dist[v] <= bound ==> IsCheapest(rows, seeds, v, dist[v]))
  }

  function SeedsOf(s: EdgeRow): map<int, real> {
    map[s.from := s.length / 2.0, s.to := s.length / 2.0]
  }

  /** min(seeds.get(node, inf), d). */
  function Cheaper(seeds: map<int, real>, node: int, d: real): real {
    if node in seeds && seeds[node] < d then seeds[node] else d
  }

  /** An end of t was reached, and d is the smaller settled end plus half of t. */
  ghost predicate IsBest(dist: map<int, real>, t: EdgeRow, d: real) {
    && (exists b :: HasEnd(t, b) && b in dist && d == dist[b] + t.length / 2.0)
    && (forall b :: HasEnd(t, b) && b in dist ==> d <= dist[b] + t.length / 2.0)
  }

  lemma JoinedEndReached(rows: seq<EdgeRow>, bandwidth: real, dist: map<int, real>, s: EdgeRow, t: EdgeRow, c: real)
    requires IsSearchResult(rows, SeedsOf(s), bandwidth, dist)
    requires t.length >= 0.0 && Joined(rows, s, t, c) && c <= bandwidth
    ensures exists b :: HasEnd(t, b) && b in dist && dist[b] + t.length / 2.0 <= c
  {
    var a, b, w :| JoinedBy(rows, s, t, a, b, w, c);
    assert ReachedBy(rows, SeedsOf(s), a, w, b, s.length / 2.0 + WalkLength(w));
    assert Reached(rows, SeedsOf(s), b, s.length / 2.0 + WalkLength(w));
  }

  /** The pipeline's test on the smaller settled end decides exactly whether t is a neighbour, and at what distance. */
  lemma TargetDecision(rows: seq<EdgeRow>, bandwidth: real, dist: map<int, real>, s: EdgeRow, t: EdgeRow, d: real)
    requires NonNegative(rows) && t in rows && s.id != t.id
    requires IsSearchResult(rows, SeedsOf(s), bandwidth, dist) && IsBest(dist, t, d)
    ensures forall x :: IsNeighbor(rows, bandwidth, s, t, x) <==> x == d && d <= bandwidth
  {
    forall c | Joined(rows, s, t, c) && c <= bandwidth ensures d <= c {
      JoinedEndReached(rows, bandwidth, dist, s, t, c);
    }
    if d <= bandwidth {
      var b :| HasEnd(t, b) && b in dist && d == dist[b] + t.length / 2.0;
      assert IsCheapest(rows, SeedsOf(s), b, dist[b]);
      var a, w :| ReachedBy(rows, SeedsOf(s), a, w, b, dist[b]);
      assert JoinedBy(rows, s, t, a, b, w, d);
      assert IsEdgeDistance(rows, s, t, d);
    }
    forall x | IsNeighbor(rows, bandwidth, s, t, x) ensures x == d && d <= bandwidth {
      assert d <= x;
      assert Joined(rows, s, t, d);
    }
  }

  // ---------- the rows of one source edge ----------

  ghost predicate IsRowFor(rows: seq<EdgeRow>, graphVersion: int, bandwidth: real, s: EdgeRow, r: Row) {
    && r.graphVersion == graphVersion && r.bandwidth == bandwidth && r.source == s.id
    && exists t :: t in rows && r.target == t.id && IsNeighbor(rows, bandwidth, s, t, r.distance)
  }

  ghost predicate DistinctTargets(block: seq<Row>) {
    forall i, j :: 0 <= i < j < |block| ==> block[i].target != block[j].target
  }

  /** The rows for those targets of s whose ids are in `ids`: all of them, nothing else, each target once. */
  ghost predicate IsBlock(rows: seq<EdgeRow>, graphVersion: int, bandwidth: real, s: EdgeRow, ids: set<int>, block: seq<Row>) {
    && (forall r :: r in block ==> r.target in ids && IsRowFor(rows, graphVersion, bandwidth, s, r))
    && (forall t, d :: t in rows && t.id in ids && IsNeighbor(rows, bandwidth, s, t, d) ==>
          Row(graphVersion, s.id, t.id, bandwidth, d) in block)
    && DistinctTargets(block)
  }

  lemma BlockAdd(rows: seq<EdgeRow>, graphVersion: int, bandwidth: real, s: EdgeRow, ids: set<int>, block: seq<Row>,
                 t: EdgeRow, d: real)
    requires DistinctIds(rows) && IsBlock(rows, graphVersion, bandwidth, s, ids, block) && t in rows && t.id !in ids
    requires forall x :: IsNeighbor(rows, bandwidth, s, t, x) <==> x == d
    ensures IsBlock(rows, graphVersion, bandwidth, s, ids + {t.id}, block + [Row(graphVersion, s.id, t.id, bandwidth, d)])
  {
  }

  lemma BlockSkip(rows: seq<EdgeRow>, graphVersion: int, bandwidth: real, s: EdgeRow, ids: set<int>, block: seq<Row>, t: EdgeRow)
    requires DistinctIds(rows) && IsBlock(rows, graphVersion, bandwidth, s, ids, block) && t in rows
    requires forall x :: !IsNeighbor(rows, bandwidth, s, t, x)
    ensures IsBlock(rows, graphVersion, bandwidth, s, ids + {t.id}, block)
  {
  }

  ghost function AllIds(rows: seq<EdgeRow>): set<int> {
    set e | e in rows :: e.id
  }

  /** Every edge incident to the node has been looked at. */
  ghost predicate Touched(rows: seq<EdgeRow>, node: int, ids: set<int>) {
    forall id :: id in IncidentOf(rows, node) ==> id in ids
  }

  ghost predicate AllTouched(rows: seq<EdgeRow>, nodes: seq<int>, ids: set<int>) {
    forall node :: node in nodes ==> Touched(rows, node, ids)
  }

  lemma TouchedNext(rows: seq<EdgeRow>, nodes: seq<int>, fewer: set<int>, node: int, ids: set<int>)
    requires AllTouched(rows, nodes, fewer) && fewer <= ids && Touched(rows, node, ids)
    ensures AllTouched(rows, nodes + [node], ids)
  {
  }

  /** Once every edge touching a reached node has been looked at, no neighbour is missing. */
  lemma BlockComplete(rows: seq<EdgeRow>, graphVersion: int, bandwidth: real, s: EdgeRow, dist: map<int, real>,
                      ids: set<int>, block: seq<Row>)
    requires DistinctIds(rows) && NonNegative(rows) && s in rows
    requires IsSearchResult(rows, SeedsOf(s), bandwidth, dist)
    requires IsBlock(rows, graphVersion, bandwidth, s, ids, block) && s.id !in ids
    requires forall node :: node in dist ==> Touched(rows, node, ids + {s.id})
    ensures IsBlock(rows, graphVersion, bandwidth, s, AllIds(rows),
                    block + [Row(graphVersion, s.id, s.id, bandwidth, 0.0)])
  {
    var whole := block + [Row(graphVersion, s.id, s.id, bandwidth, 0.0)];
    BlockAdd(rows, graphVersion, bandwidth, s, ids, block, s, 0.0);
    forall r | r in whole ensures r.target in AllIds(rows) {
      assert IsRowFor(rows, graphVersion, bandwidth, s, r);
    }
    forall t, d | t in rows && IsNeighbor(rows, bandwidth, s, t, d)
      ensures Row(graphVersion, s.id, t.id, bandwidth, d) in whole
    {
      if t.id != s.id {
        JoinedEndReached(rows, bandwidth, dist, s, t, d);
        var b :| HasEnd(t, b) && b in dist;
        IncidentMeaning(rows, b, t.id);
        assert Touched(rows, b, ids + {s.id});
      }
    }
  }

  // ---------- the job ----------

  function Flatten(blocks: seq<seq<Row>>): seq<Row> {
    if blocks == [] then [] else Flatten(blocks[..|blocks| - 1]) + blocks[|blocks| - 1]
  }

  lemma FlattenAppend(blocks: seq<seq<Row>>, block: seq<Row>)
    ensures Flatten(blocks + [block]) == Flatten(blocks) + block
  {
  }

  /** DELETE ... WHERE graph_version_id = gv AND bandwidth_meters = bw. */
  function Cleared(table: seq<Row>, graphVersion: int, bandwidth: real): seq<Row> {
    if table == [] then []
    else
      Cleared(table[..|table| - 1], graphVersion, bandwidth) +
      var r := table[|table| - 1];
      if r.graphVersion == graphVersion && r.bandwidth == bandwidth then [] else [r]
  }

  /** Primary key of edge_network_neighborhoods. */
  ghost predicate UniqueNeighbors(neighbors: seq<Row>) {
    forall i, j :: 0 <= i < j < |neighbors| ==> !SameSlot(neighbors[i], neighbors[j])
  }

  predicate SameSlot(m: Row, n: Row) {
    m.graphVersion == n.graphVersion && m.bandwidth == n.bandwidth && m.source == n.source && m.target == n.target
  }

  lemma LastRowIsNew(before: seq<Row>, n: Row)
    requires UniqueNeighbors(before + [n])
    ensures UniqueNeighbors(before) && forall m :: m in before ==> !SameSlot(m, n)
  {
    var whole := before + [n];
    assert forall i :: 0 <= i < |before| ==> whole[i] == before[i];
    forall m | m in before ensures !SameSlot(m, n) {
      var i :| 0 <= i < |before| && before[i] == m;
      assert whole[i] == m && whole[|before|] == n;
    }
  }

  /** Edge ids in ascending order. */
  ghost predicate IsSortedIds(ids: seq<int>, edges: map<int, EdgeRow>) {
    (forall id :: id in ids <==> id in edges) && (forall i, j :: 0 <= i < j < |ids| ==> ids[i] < ids[j])
  }

  method SortedIds(edges: map<int, EdgeRow>) returns (ids: seq<int>)
    ensures IsSortedIds(ids, edges)
  {
    ids := [];
    var todo := edges.Keys;
    while todo != {}
      invariant todo <= edges.Keys && forall id :: id in edges <==> id in ids || id in todo
      invariant forall id, later :: id in ids && later in todo ==> id < later
      invariant forall i, j :: 0 <= i < j < |ids| ==> ids[i] < ids[j]
      decreases todo
    {
      ghost var least := LeastOf(todo);
      assert least in todo && forall id | id in todo :: least <= id;
      var id :| id in todo && forall other | other in todo :: id <= other;
      forall i | 0 <= i < |ids| ensures ids[i] < id { assert ids[i] in ids; }
      ids, todo := ids + [id], todo - {id};
    }
  }

  /** The blocks the job generates, one per source edge in id order. */
  ghost predicate IsJobOutput(rows: seq<EdgeRow>, graphVersion: int, bandwidth: real, edges: map<int, EdgeRow>,
                              ids: seq<int>, blocks: seq<seq<Row>>) {
    && |blocks| <= |ids|
    && (forall k :: 0 <= k < |blocks| ==> ids[k] in edges)
    && (forall k :: 0 <= k < |blocks| ==> IsBlock(rows, graphVersion, bandwidth, edges[ids[k]], AllIds(rows), blocks[k]))
  }

  lemma JobGoesOn(rows: seq<EdgeRow>, graphVersion: int, bandwidth: real, edges: map<int, EdgeRow>,
                  ids: seq<int>, blocks: seq<seq<Row>>, block: seq<Row>)
    requires IsJobOutput(rows, graphVersion, bandwidth, edges, ids, blocks) && |blocks| < |ids|
    requires ids[|blocks|] in edges && IsBlock(rows, graphVersion, bandwidth, edges[ids[|blocks|]], AllIds(rows), block)
    ensures IsJobOutput(rows, graphVersion, bandwidth, edges, ids, blocks + [block])
  {
    var longer := blocks + [block];
    forall k | 0 <= k < |longer|
      ensures ids[k] in edges && IsBlock(rows, graphVersion, bandwidth, edges[ids[k]], AllIds(rows), longer[k])
    {
      if k < |blocks| { assert longer[k] == blocks[k]; }
    }
  }

  lemma Associative(a: seq<Row>, b: seq<Row>, c: seq<Row>)
    ensures a + b + c == a + (b + c)
  {}

  /** The accounts of a run: copied and buffered rows are the generated ones, and both totals count them. */
  ghost predicate AddsUp(cleared: seq<Row>, blocks: seq<seq<Row>>, table: seq<Row>, buffer: seq<Row>, buffered: int,
                         totalRows: int, targetCounts: seq<int>) {
    && |targetCounts| == |blocks| && buffered == |buffer| && table + buffer == cleared + Flatten(blocks)
    && totalRows + buffered == |Flatten(blocks)| == Sum(targetCounts)
    && forall k :: 0 <= k < |blocks| ==> targetCounts[k] == |blocks[k]|
  }

  lemma BlockAddsUp(cleared: seq<Row>, blocks: seq<seq<Row>>, table: seq<Row>, buffer: seq<Row>, buffered: int,
                    totalRows: int, targetCounts: seq<int>, block: seq<Row>)
    requires AddsUp(cleared, blocks, table, buffer, buffered, totalRows, targetCounts)
    ensures AddsUp(cleared, blocks + [block], table, buffer + block, buffered + |block|, totalRows, targetCounts + [|block|])
  {
    FlattenAppend(blocks, block);
    Associative(table, buffer, block);
    Associative(cleared, Flatten(blocks), block);
    SumAppend(targetCounts, |block|);
  }

  lemma FlushAddsUp(cleared: seq<Row>, blocks: seq<seq<Row>>, table: seq<Row>, buffer: seq<Row>, buffered: int,
                    totalRows: int, targetCounts: seq<int>)
    requires AddsUp(cleared, blocks, table, buffer, buffered, totalRows, targetCounts)
    ensures AddsUp(cleared, blocks, table + buffer, [], 0, totalRows + |buffer|, targetCounts)
  {
  }

  class NeighborhoodJob {
    const graphVersion: int
    const bandwidth: real
    const flushRows: int
    var table: seq<Row>
    var buffer: seq<Row>
    var buffered: int
    var totalRows: int
    var targetCounts: seq<int>

    constructor (graphVersion: int, bandwidth: real, flushRows: int, table: seq<Row>)
      ensures this.graphVersion == graphVersion && this.bandwidth == bandwidth && this.flushRows == flushRows
      ensures this.table == table && buffer == [] && buffered == 0 && totalRows == 0 && targetCounts == []
    {
      this.graphVersion, this.bandwidth, this.flushRows, this.table := graphVersion, bandwidth, flushRows, table;
      buffer, buffered, totalRows, targetCounts := [], 0, 0, [];
    }

    /** COPY the buffered rows and empty the buffer. */
    method Flush()
      requires buffered == |buffer|
      modifies this`table, this`buffer, this`buffered, this`totalRows
      ensures table == old(table) + old(buffer) && buffer == [] && buffered == 0
      ensures totalRows == old(totalRows) + |old(buffer)|
    {
      if buffered == 0 {
        return;
      }
      table := table + buffer;
      totalRows := totalRows + buffered;
      buffer, buffered := [], 0;
    }

    method Write(row: Row)
      modifies this`buffer, this`buffered
      ensures buffer == old(buffer) + [row] && buffered == old(buffered) + 1
    {
      buffer := buffer + [row];
      buffered := buffered + 1;
    }

    /** Buffer the rows of one source edge: its reached neighbours, then itself. */
    method EmitSource(graph: Graph, s: EdgeRow) returns (ghost block: seq<Row>)
      requires graph.Valid() && NonNegative(graph.rows) && s in graph.rows
      modifies this`buffer, this`buffered, this`targetCounts
      ensures buffer == old(buffer) + block && buffered == old(buffered) + |block|
      ensures targetCounts == old(targetCounts) + [|block|]
      ensures IsBlock(graph.rows, graphVersion, bandwidth, s, AllIds(graph.rows), block)
    {
      ghost var rows := graph.rows;
      var half := s.length / 2.0;
      var seeds := map[s.from := half];
      seeds := seeds[s.to := Cheaper(seeds, s.to, half)];
      assert seeds == SeedsOf(s);
      var dist, order := BoundedDijkstra(graph, seeds, bandwidth);
      var seen, visited;
      seen, visited, block := EmitReached(graph, s, dist, order);
      assert forall node :: node in dist ==> node in order && Touched(graph.rows, node, visited);
      BlockComplete(rows, graphVersion, bandwidth, s, dist, visited - {s.id}, block);
      var self := Row(graphVersion, s.id, s.id, bandwidth, 0.0);
      Write(self);
      Associative(old(buffer), block, [self]);
      block := block + [self];
      targetCounts := targetCounts + [seen + 1];
    }

    /** Every edge incident to a reached node, in the order the nodes were settled. */
    method EmitReached(graph: Graph, s: EdgeRow, dist: map<int, real>, order: seq<int>)
      returns (seen: int, visited: set<int>, ghost block: seq<Row>)
      requires graph.Valid() && NonNegative(graph.rows)
      requires IsSearchResult(graph.rows, SeedsOf(s), bandwidth, dist) && forall v :: v in order <==> v in dist
      modifies this`buffer, this`buffered
      ensures buffer == old(buffer) + block && buffered == old(buffered) + |block| && seen == |block|
      ensures IsBlock(graph.rows, graphVersion, bandwidth, s, visited - {s.id}, block)
      ensures AllTouched(graph.rows, order, visited)
    {
      seen, visited, block := 0, {}, [];
      for i := 0 to |order|
        invariant buffer == old(buffer) + block && buffered == old(buffered) + |block| && seen == |block|
        invariant IsBlock(graph.rows, graphVersion, bandwidth, s, visited - {s.id}, block)
        invariant AllTouched(graph.rows, order[..i], visited)
      {
        assert order[i] in order;
        ghost var before := visited;
        ghost var more;
        visited, seen, more := EmitIncident(graph, s, dist, order[i], visited, seen, block);
        TouchedNext(graph.rows, order[..i], before, order[i], visited);
        assert order[..i + 1] == order[..i] + [order[i]];
        Associative(old(buffer), block, more);
        block := block + more;
      }
      assert order[..|order|] == order;
    }

    /** The edges incident to one reached node, skipping those already visited. */
    method EmitIncident(graph: Graph, s: EdgeRow, dist: map<int, real>, node: int, visited0: set<int>, seen0: int,
                        ghost block: seq<Row>)
      returns (visited: set<int>, seen: int, ghost more: seq<Row>)
      requires graph.Valid() && NonNegative(graph.rows) && node in dist
      requires IsSearchResult(graph.rows, SeedsOf(s), bandwidth, dist)
      requires IsBlock(graph.rows, graphVersion, bandwidth, s, visited0 - {s.id}, block)
      modifies this`buffer, this`buffered
      ensures buffer == old(buffer) + more && buffered == old(buffered) + |more| && seen == seen0 + |more|
      ensures IsBlock(graph.rows, graphVersion, bandwidth, s, visited - {s.id}, block + more)
      ensures visited0 <= visited && Touched(graph.rows, node, visited)
    {
      visited, seen, more := visited0, seen0, [];
      assert block + more == block;
      var incident := Get(graph.incident, node);
      assert incident == IncidentOf(graph.rows, node);
      for j := 0 to |incident|
        invariant buffer == old(buffer) + more && buffered == old(buffered) + |more| && seen == seen0 + |more|
        invariant IsBlock(graph.rows, graphVersion, bandwidth, s, visited - {s.id}, block + more)
        invariant visited0 <= visited && forall m :: 0 <= m < j ==> incident[m] in visited
      {
        var id := incident[j];
        if id in visited {
          continue;
        }
        ghost var before := visited - {s.id};
        visited := visited + {id};
        if id == s.id {
          assert visited - {s.id} == before;
          continue;
        }
        assert visited - {s.id} == before + {id};
        IncidentMeaning(graph.rows, node, id);
        var stored, one := EmitTarget(graph, s, dist, id, before, block + more);
        Associative(old(buffer), more, one);
        Associative(block, more, one);
        if stored { seen := seen + 1; }
        more := more + one;
      }
    }

    /** One candidate target: stored exactly when it is within the bandwidth. */
    method EmitTarget(graph: Graph, s: EdgeRow, dist: map<int, real>, id: int, ghost ids: set<int>, ghost block: seq<Row>)
      returns (stored: bool, ghost one: seq<Row>)
      requires graph.Valid() && NonNegative(graph.rows) && id in graph.edges && id != s.id && id !in ids
      requires graph.edges[id].from in dist || graph.edges[id].to in dist
      requires IsSearchResult(graph.rows, SeedsOf(s), bandwidth, dist)
      requires IsBlock(graph.rows, graphVersion, bandwidth, s, ids, block)
      modifies this`buffer, this`buffered
      ensures buffer == old(buffer) + one && buffered == old(buffered) + |one| && |one| == if stored then 1 else 0
      ensures IsBlock(graph.rows, graphVersion, bandwidth, s, ids + {id}, block + one)
    {
      var t := graph.edges[id];
      var d := Best(dist, t);
      TargetDecision(graph.rows, bandwidth, dist, s, t, d);
      stored := d <= bandwidth;
      if stored {
        BlockAdd(graph.rows, graphVersion, bandwidth, s, ids, block, t, d);
        var row := Row(graphVersion, s.id, id, bandwidth, d);
        Write(row);
        one := [row];
      } else {
        BlockSkip(graph.rows, graphVersion, bandwidth, s, ids, block, t);
        one := [];
        assert block + one == block;
      }
    }

    /** min(dist.get(from, inf), dist.get(to, inf)) + length / 2, where at least one end was reached. */
    static method Best(dist: map<int, real>, t: EdgeRow) returns (d: real)
      requires t.from in dist || t.to in dist
      ensures IsBest(dist, t, d)
    {
      var best :=
        if t.from in dist && t.to in dist then (if dist[t.to] < dist[t.from] then dist[t.to] else dist[t.from])
        else if t.from in dist then dist[t.from] else dist[t.to];
      d := best + t.length / 2.0;
      assert HasEnd(t, t.from) && HasEnd(t, t.to);
    }

    /** Replace this graph version's rows for the bandwidth; every generated row is copied, whatever the buffer size. */
    method Run(graph: Graph) returns (ids: seq<int>, ghost blocks: seq<seq<Row>>)
      requires graph.Valid() && NonNegative(graph.rows)
      requires buffer == [] && buffered == 0 && totalRows == 0 && targetCounts == []
      modifies this
      ensures IsSortedIds(ids, graph.edges) && |blocks| == |ids|
      ensures IsJobOutput(graph.rows, graphVersion, bandwidth, graph.edges, ids, blocks)
      ensures table == Cleared(old(table), graphVersion, bandwidth) + Flatten(blocks)
      ensures buffer == [] && totalRows == |Flatten(blocks)| == Sum(targetCounts)
      ensures |targetCounts| == |ids| && forall k :: 0 <= k < |ids| ==> targetCounts[k] == |blocks[k]|
    {
      table := Cleared(table, graphVersion, bandwidth);
      ghost var cleared := table;
      ids, blocks := RunSources(graph, cleared);
      FlushAddsUp(cleared, blocks, table, buffer, buffered, totalRows, targetCounts);
      Flush();
      assert table + [] == table;
    }

    /** The loop over source edges. */
    method RunSources(graph: Graph, ghost cleared: seq<Row>) returns (ids: seq<int>, ghost blocks: seq<seq<Row>>)
      requires graph.Valid() && NonNegative(graph.rows)
      requires AddsUp(cleared, [], table, buffer, buffered, totalRows, targetCounts)
      modifies this
      ensures IsSortedIds(ids, graph.edges) && |blocks| == |ids|
      ensures IsJobOutput(graph.rows, graphVersion, bandwidth, graph.edges, ids, blocks)
      ensures AddsUp(cleared, blocks, table, buffer, buffered, totalRows, targetCounts)
    {
      ids := SortedIds(graph.edges);
      blocks := [];
      for i := 0 to |ids|
        invariant |blocks| == i && IsJobOutput(graph.rows, graphVersion, bandwidth, graph.edges, ids, blocks)
        invariant AddsUp(cleared, blocks, table, buffer, buffered, totalRows, targetCounts)
      {
        assert ids[i] in ids;
        ghost var block := RunSource(graph, ids[i], cleared, ids, blocks);
        blocks := blocks + [block];
      }
    }

    /** One turn of the loop over source edges. */
    method RunSource(graph: Graph, id: int, ghost cleared: seq<Row>, ghost ids: seq<int>, ghost blocks: seq<seq<Row>>)
      returns (ghost block: seq<Row>)
      requires graph.Valid() && NonNegative(graph.rows) && id in graph.edges && |blocks| < |ids| && ids[|blocks|] == id
      requires IsJobOutput(graph.rows, graphVersion, bandwidth, graph.edges, ids, blocks)
      requires AddsUp(cleared, blocks, table, buffer, buffered, totalRows, targetCounts)
      modifies this
      ensures IsJobOutput(graph.rows, graphVersion, bandwidth, graph.edges, ids, blocks + [block])
      ensures AddsUp(cleared, blocks + [block], table, buffer, buffered, totalRows, targetCounts)
    {
      ghost var unsent, counts, held := buffer, targetCounts, buffered;
      block := EmitSource(graph, graph.edges[id]);
      JobGoesOn(graph.rows, graphVersion, bandwidth, graph.edges, ids, blocks, block);
      BlockAddsUp(cleared, blocks, table, unsent, held, totalRows, counts, block);
      if buffered >= flushRows {
        FlushAddsUp(cleared, blocks + [block], table, buffer, buffered, totalRows, targetCounts);
        Flush();
      }
    }
  }
}
