/** Laws of the stored neighbourhood relation: exactness, symmetry, and growth with the bandwidth. */
module NeighborhoodLaws {
  import opened RoadGraph
  import opened Neighborhoods

  // ---------- the network distance ----------

  lemma JoinedReverses(rows: seq<EdgeRow>, s: EdgeRow, t: EdgeRow, c: real)
    requires Joined(rows, s, t, c)
    ensures Joined(rows, t, s, c)
  {
    var a, b, w :| JoinedBy(rows, s, t, a, b, w, c);
    ReverseWalk(rows, a, w, b);
    assert JoinedBy(rows, t, s, b, a, Reversed(w), c);
  }

  lemma NeighborSymmetric(rows: seq<EdgeRow>, bandwidth: real, s: EdgeRow, t: EdgeRow, d: real)
    requires IsNeighbor(rows, bandwidth, s, t, d)
    ensures IsNeighbor(rows, bandwidth, t, s, d)
  {
    if s.id != t.id {
      JoinedReverses(rows, s, t, d);
      forall c | Joined(rows, t, s, c) ensures d <= c {
        JoinedReverses(rows, t, s, c);
      }
    }
  }

  // ---------- the stored rows ----------

  /** What a finished run has generated. */
  ghost predicate IsFinishedJob(rows: seq<EdgeRow>, graphVersion: int, bandwidth: real, edges: map<int, EdgeRow>,
                                ids: seq<int>, blocks: seq<seq<Row>>) {
    && IsIndexOf(edges, rows) && IsSortedIds(ids, edges) && |blocks| == |ids|
    && IsJobOutput(rows, graphVersion, bandwidth, edges, ids, blocks)
  }

  lemma {:induction false} FlattenMember(blocks: seq<seq<Row>>, r: Row)
    ensures r in Flatten(blocks) <==> exists k :: 0 <= k < |blocks| && r in blocks[k]
  {
    if blocks != [] {
      var before := blocks[..|blocks| - 1];
      FlattenMember(before, r);
      assert forall k :: 0 <= k < |before| ==> before[k] == blocks[k];
      if k :| 0 <= k < |blocks| && r in blocks[k] {
        if k < |before| { assert r in before[k]; }
      }
    }
  }

  /** The generated rows are exactly the neighbour pairs, over all edges of the graph. */
  lemma StoredExactly(rows: seq<EdgeRow>, graphVersion: int, bandwidth: real, edges: map<int, EdgeRow>,
                      ids: seq<int>, blocks: seq<seq<Row>>, s: EdgeRow, t: EdgeRow, d: real)
    requires IsFinishedJob(rows, graphVersion, bandwidth, edges, ids, blocks) && s in rows && t in rows
    ensures Row(graphVersion, s.id, t.id, bandwidth, d) in Flatten(blocks) <==> IsNeighbor(rows, bandwidth, s, t, d)
  {
    var r := Row(graphVersion, s.id, t.id, bandwidth, d);
    FlattenMember(blocks, r);
    assert s.id in ids;
    var k :| 0 <= k < |ids| && ids[k] == s.id;
    assert IsBlock(rows, graphVersion, bandwidth, s, AllIds(rows), blocks[k]);
    if r in Flatten(blocks) {
      var j :| 0 <= j < |blocks| && r in blocks[j];
      assert IsBlock(rows, graphVersion, bandwidth, edges[ids[j]], AllIds(rows), blocks[j]);
      assert IsRowFor(rows, graphVersion, bandwidth, edges[ids[j]], r);
      assert edges[ids[j]] == s;
      var u :| u in rows && r.target == u.id && IsNeighbor(rows, bandwidth, s, u, d);
      assert u == t;
    }
  }

  /** Every generated row belongs to two edges of the graph, so the two lemmas below speak of all rows. */
  lemma StoredRowsAreEdges(rows: seq<EdgeRow>, graphVersion: int, bandwidth: real, edges: map<int, EdgeRow>,
                           ids: seq<int>, blocks: seq<seq<Row>>, r: Row) returns (s: EdgeRow, t: EdgeRow)
    requires IsFinishedJob(rows, graphVersion, bandwidth, edges, ids, blocks) && r in Flatten(blocks)
    ensures s in rows && t in rows && r == Row(graphVersion, s.id, t.id, bandwidth, r.distance)
    ensures IsNeighbor(rows, bandwidth, s, t, r.distance)
  {
    FlattenMember(blocks, r);
    var k :| 0 <= k < |blocks| && r in blocks[k];
    s := edges[ids[k]];
    assert IsBlock(rows, graphVersion, bandwidth, s, AllIds(rows), blocks[k]);
    assert IsRowFor(rows, graphVersion, bandwidth, s, r);
    t :| t in rows && r.target == t.id && IsNeighbor(rows, bandwidth, s, t, r.distance);
  }

  /** A pair and its mirror image are stored together, at the same distance. */
  lemma StoredSymmetric(rows: seq<EdgeRow>, graphVersion: int, bandwidth: real, edges: map<int, EdgeRow>,
                        ids: seq<int>, blocks: seq<seq<Row>>, r: Row)
    requires IsFinishedJob(rows, graphVersion, bandwidth, edges, ids, blocks)
    ensures r in Flatten(blocks) <==> r.(source := r.target, target := r.source) in Flatten(blocks)
  {
    var mirror := r.(source := r.target, target := r.source);
    if r in Flatten(blocks) {
      var s, t := StoredRowsAreEdges(rows, graphVersion, bandwidth, edges, ids, blocks, r);
      NeighborSymmetric(rows, bandwidth, s, t, r.distance);
      StoredExactly(rows, graphVersion, bandwidth, edges, ids, blocks, t, s, r.distance);
    }
    if mirror in Flatten(blocks) {
      var s, t := StoredRowsAreEdges(rows, graphVersion, bandwidth, edges, ids, blocks, mirror);
      NeighborSymmetric(rows, bandwidth, s, t, mirror.distance);
      StoredExactly(rows, graphVersion, bandwidth, edges, ids, blocks, t, s, mirror.distance);
    }
  }

  /** Widening the bandwidth keeps every pair at its distance and only adds pairs farther than the old bandwidth. */
  lemma StoredMonotone(rows: seq<EdgeRow>, graphVersion: int, edges: map<int, EdgeRow>, ids: seq<int>,
                       narrow: real, narrowBlocks: seq<seq<Row>>, wide: real, wideBlocks: seq<seq<Row>>, r: Row)
    requires narrow <= wide
    requires IsFinishedJob(rows, graphVersion, narrow, edges, ids, narrowBlocks)
    requires IsFinishedJob(rows, graphVersion, wide, edges, ids, wideBlocks)
    ensures r in Flatten(narrowBlocks) <==>
            && r.(bandwidth := wide) in Flatten(wideBlocks) && r.bandwidth == narrow
            && (r.distance <= narrow || r.source == r.target)
  {
    if r in Flatten(narrowBlocks) {
      var s, t := StoredRowsAreEdges(rows, graphVersion, narrow, edges, ids, narrowBlocks, r);
      StoredExactly(rows, graphVersion, wide, edges, ids, wideBlocks, s, t, r.distance);
    }
    if r.(bandwidth := wide) in Flatten(wideBlocks) && r.bandwidth == narrow &&
       (r.distance <= narrow || r.source == r.target) {
      var s, t := StoredRowsAreEdges(rows, graphVersion, wide, edges, ids, wideBlocks, r.(bandwidth := wide));
      StoredExactly(rows, graphVersion, narrow, edges, ids, narrowBlocks, s, t, r.distance);
    }
  }

  /** The generated rows never repeat a (source, target) pair. */
  lemma {:induction false} GeneratedOnce(rows: seq<EdgeRow>, graphVersion: int, bandwidth: real, edges: map<int, EdgeRow>,
                                         ids: seq<int>, blocks: seq<seq<Row>>)
    requires IsIndexOf(edges, rows) && forall i, j :: 0 <= i < j < |ids| ==> ids[i] < ids[j]
    requires IsJobOutput(rows, graphVersion, bandwidth, edges, ids, blocks)
    ensures UniqueNeighbors(Flatten(blocks))
    decreases |blocks|
  {
    if blocks != [] {
      var n := |blocks| - 1;
      var before := blocks[..n];
      GeneratedOnce(rows, graphVersion, bandwidth, edges, ids, before);
      assert IsBlock(rows, graphVersion, bandwidth, edges[ids[n]], AllIds(rows), blocks[n]);
      forall m, r | m in Flatten(before) && r in blocks[n] ensures !SameSlot(m, r) {
        FlattenMember(before, m);
        var k :| 0 <= k < n && m in before[k];
        assert IsBlock(rows, graphVersion, bandwidth, edges[ids[k]], AllIds(rows), blocks[k]);
        assert IsRowFor(rows, graphVersion, bandwidth, edges[ids[k]], m);
        assert IsRowFor(rows, graphVersion, bandwidth, edges[ids[n]], r);
        assert ids[k] < ids[n];
      }
      ConcatUnique(Flatten(before), blocks[n]);
    }
  }

  lemma ConcatUnique(a: seq<Row>, b: seq<Row>)
    requires UniqueNeighbors(a) && UniqueNeighbors(b) && forall m, n :: m in a && n in b ==> !SameSlot(m, n)
    ensures UniqueNeighbors(a + b)
  {
    forall i, j | 0 <= i < |a| && 0 <= j < |b| ensures !SameSlot(a[i], b[j]) {
      assert a[i] in a && b[j] in b;
    }
  }

  // ---------- the whole table ----------

  /** What a finished run leaves in the table. */
  function TableAfter(table: seq<Row>, graphVersion: int, bandwidth: real, blocks: seq<seq<Row>>): seq<Row> {
    Cleared(table, graphVersion, bandwidth) + Flatten(blocks)
  }

  predicate IsOf(r: Row, graphVersion: int, bandwidth: real) {
    r.graphVersion == graphVersion && r.bandwidth == bandwidth
  }

  lemma {:induction false} ClearedKeepsOthers(table: seq<Row>, graphVersion: int, bandwidth: real)
    ensures forall r :: r in Cleared(table, graphVersion, bandwidth) <==> r in table && !IsOf(r, graphVersion, bandwidth)
    ensures UniqueNeighbors(table) ==> UniqueNeighbors(Cleared(table, graphVersion, bandwidth))
  {
    if table != [] {
      var before, last := table[..|table| - 1], table[|table| - 1];
      ClearedKeepsOthers(before, graphVersion, bandwidth);
      assert table == before + [last];
      if UniqueNeighbors(table) {
        LastRowIsNew(before, last);
        ConcatUnique(Cleared(before, graphVersion, bandwidth), if IsOf(last, graphVersion, bandwidth) then [] else [last]);
      }
    }
  }

  /** After a run the rows of its version and bandwidth are the generated ones; all others are as before. */
  lemma TableHolds(rows: seq<EdgeRow>, graphVersion: int, bandwidth: real, edges: map<int, EdgeRow>,
                   ids: seq<int>, blocks: seq<seq<Row>>, table: seq<Row>, r: Row)
    requires IsFinishedJob(rows, graphVersion, bandwidth, edges, ids, blocks)
    ensures r in TableAfter(table, graphVersion, bandwidth, blocks) <==>
            if IsOf(r, graphVersion, bandwidth) then r in Flatten(blocks) else r in table
  {
    ClearedKeepsOthers(table, graphVersion, bandwidth);
    if r in Flatten(blocks) {
      var s, t := StoredRowsAreEdges(rows, graphVersion, bandwidth, edges, ids, blocks, r);
    }
  }

  /** The table keeps its primary key: copying the generated rows behind the kept ones repeats no key. */
  lemma StoredOnce(rows: seq<EdgeRow>, graphVersion: int, bandwidth: real, edges: map<int, EdgeRow>,
                   ids: seq<int>, blocks: seq<seq<Row>>, table: seq<Row>)
    requires IsFinishedJob(rows, graphVersion, bandwidth, edges, ids, blocks) && UniqueNeighbors(table)
    ensures UniqueNeighbors(TableAfter(table, graphVersion, bandwidth, blocks))
  {
    ClearedKeepsOthers(table, graphVersion, bandwidth);
    GeneratedOnce(rows, graphVersion, bandwidth, edges, ids, blocks);
    var kept := Cleared(table, graphVersion, bandwidth);
    forall m, n | m in kept && n in Flatten(blocks) ensures !SameSlot(m, n) {
      var s, t := StoredRowsAreEdges(rows, graphVersion, bandwidth, edges, ids, blocks, n);
    }
    ConcatUnique(kept, Flatten(blocks));
  }
}
