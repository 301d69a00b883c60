/** The bulk loader: rows collected in a batch keyed by source_id, each batch written by one upsert statement. */
module BatchedLoad {

  /** A row of crimes as the statement writes it; `columns` stands for everything but the key. */
  datatype Row = Row(sourceId: string, columns: string)

  /** A line of the input: blank, unusable, or a row. */
  datatype Line = Blank | Unusable | Usable(row: Row)

  type Table = map<string, string>

  // ---------- the upsert ----------

  /** INSERT ... ON CONFLICT (source_id) DO UPDATE for one row. */
  function UpsertOne(t: Table, r: Row): Table {
    t[r.sourceId := r.columns]
  }

  /** One upsert after another: the last row of a key wins. */
  function UpsertEach(t: Table, rows: seq<Row>): Table {
    if rows == [] then t else UpsertOne(UpsertEach(t, rows[..|rows| - 1]), rows[|rows| - 1])
  }

  /** PostgreSQL rejects a statement that would affect one row twice. */
  ghost predicate DistinctKeys(rows: seq<Row>) {
    forall i, j :: 0 <= i < j < |rows| ==> rows[i].sourceId != rows[j].sourceId
  }

  // ---------- the batch dictionary ----------

  /** batch[key] = row: an existing key keeps its place, a new one goes last. */
  function Put(batch: seq<Row>, r: Row): seq<Row> {
    if batch == [] then [r]
    else if batch[0].sourceId == r.sourceId then [r] + batch[1..]
    else [batch[0]] + Put(batch[1..], r)
  }

  lemma {:induction false} PutMembers(batch: seq<Row>, r: Row)
    requires DistinctKeys(batch)
    ensures DistinctKeys(Put(batch, r))
    ensures forall x :: x in Put(batch, r) <==> x == r || (x in batch && x.sourceId != r.sourceId)
  {
    if batch != [] {
      var head, tail := batch[0], batch[1..];
      assert batch == [head] + tail;
      assert forall i :: 0 <= i < |tail| ==> tail[i].sourceId != head.sourceId;
      if head.sourceId == r.sourceId {
        assert forall x :: x in tail ==> x.sourceId != r.sourceId;
      } else {
        PutMembers(tail, r);
        var rest := Put(tail, r);
        assert forall i :: 0 <= i < |rest| ==> rest[i] in rest;
      }
    }
  }

  /** The row stored under a key is the batch's row for it, if any, else the table's. */
  lemma {:induction false} UpsertHit(t: Table, rows: seq<Row>, r: Row)
    requires DistinctKeys(rows) && r in rows
    ensures r.sourceId in UpsertEach(t, rows) && UpsertEach(t, rows)[r.sourceId] == r.columns
  {
    var before, last := rows[..|rows| - 1], rows[|rows| - 1];
    if r != last {
      var i :| 0 <= i < |rows| && rows[i] == r;
      assert before[i] == r;
      UpsertHit(t, before, r);
    }
  }

  lemma {:induction false} UpsertMiss(t: Table, rows: seq<Row>, key: string)
    requires forall r :: r in rows ==> r.sourceId != key
    ensures key in UpsertEach(t, rows) <==> key in t
    ensures key in t ==> UpsertEach(t, rows)[key] == t[key]
  {
    if rows != [] {
      assert rows[|rows| - 1] in rows;
      UpsertMiss(t, rows[..|rows| - 1], key);
    }
  }

  /** Putting a row in the batch has the effect of one more upsert. */
  lemma PutIsUpsert(t: Table, batch: seq<Row>, r: Row)
    requires DistinctKeys(batch)
    ensures UpsertEach(t, Put(batch, r)) == UpsertOne(UpsertEach(t, batch), r)
  {
    PutMembers(batch, r);
    var u, v := UpsertEach(t, Put(batch, r)), UpsertOne(UpsertEach(t, batch), r);
    assert r in Put(batch, r);
    UpsertHit(t, Put(batch, r), r);
    forall key ensures (key in u <==> key in v) && (key in u ==> u[key] == v[key]) {
      if key != r.sourceId {
        if x :| x in batch && x.sourceId == key {
          UpsertHit(t, batch, x);
          UpsertHit(t, Put(batch, r), x);
        } else {
          UpsertMiss(t, batch, key);
          UpsertMiss(t, Put(batch, r), key);
        }
      }
    }
  }

  // ---------- the loader ----------

  /** The rows of the usable lines, in input order. */
  function Accepted(lines: seq<Line>): seq<Row> {
    if lines == [] then []
    else
      var before, last := Accepted(lines[..|lines| - 1]), lines[|lines| - 1];
      if last.Usable? then before + [last.row] else before
  }

  function CountLines(lines: seq<Line>, blank: bool): int {
    if lines == [] then 0
    else
      CountLines(lines[..|lines| - 1], blank) +
      var last := lines[|lines| - 1];
      if blank then (if last.Blank? then 1 else 0) else (if last.Unusable? then 1 else 0)
  }

  lemma {:induction false} LinesAddUp(lines: seq<Line>)
    ensures |lines| == CountLines(lines, true) + CountLines(lines, false) + |Accepted(lines)|
  {
    if lines != [] {
      LinesAddUp(lines[..|lines| - 1]);
    }
  }

  function RowsSent(statements: seq<seq<Row>>): int {
    if statements == [] then 0 else RowsSent(statements[..|statements| - 1]) + |statements[|statements| - 1]|
  }

  class Loader {
    var table: Table
    /** Every statement sent, with its rows. */
    ghost var statements: seq<seq<Row>>

    constructor (table: Table)
      ensures this.table == table && statements == []
    {
      this.table, statements := table, [];
    }

    /** One upsert statement for the whole batch, in insertion order; nothing for an empty batch. */
    method Flush(batch: seq<Row>) returns (count: int)
      requires DistinctKeys(batch)
      modifies this
      ensures table == UpsertEach(old(table), batch) && count == |batch|
      ensures statements == if batch == [] then old(statements) else old(statements) + [batch]
      ensures RowsSent(statements) == RowsSent(old(statements)) + count
    {
      if batch == [] {
        return 0;
      }
      table := UpsertEach(table, batch);
      assert (statements + [batch])[..|statements|] == statements;
      statements := statements + [batch];
      count := |batch|;
    }

    /** The loop over the input. For any batch size the table ends as if every accepted row had been
    upserted on its own, no statement holds a key twice, and the counters add up. */
    method Load(lines: seq<Line>, batchSize: int) returns (read: int, upserted: int, failed: int)
      modifies this
      ensures table == UpsertEach(old(table), Accepted(lines))
      ensures old(statements) <= statements && forall k :: |old(statements)| <= k < |statements| ==> DistinctKeys(statements[k])
      ensures read == failed + |Accepted(lines)| && read == |lines| - CountLines(lines, true)
      ensures failed == CountLines(lines, false)
      ensures upserted == RowsSent(statements) - RowsSent(old(statements)) && 0 <= upserted <= |Accepted(lines)|
    {
      read, upserted, failed := 0, 0, 0;
      var batch: seq<Row> := [];
      for i := 0 to |lines|
        invariant DistinctKeys(batch) && UpsertEach(table, batch) == UpsertEach(old(table), Accepted(lines[..i]))
        invariant old(statements) <= statements
        invariant forall k :: |old(statements)| <= k < |statements| ==> DistinctKeys(statements[k])
        invariant failed == CountLines(lines[..i], false) && read == failed + |Accepted(lines[..i])|
        invariant upserted == RowsSent(statements) - RowsSent(old(statements))
        invariant 0 <= upserted && upserted + |batch| <= |Accepted(lines[..i])|
      {
        assert lines[..i + 1][..i] == lines[..i];
        if lines[i].Blank? {
          continue;
        }
        read := read + 1;
        if lines[i].Unusable? {
          failed := failed + 1;
          continue;
        }
        BatchStep(table, batch, old(table), lines, i);
        batch := Put(batch, lines[i].row);
        if |batch| >= batchSize {
          var n := Flush(batch);
          upserted := upserted + n;
          batch := [];
        }
      }
      assert lines[..|lines|] == lines;
      LinesAddUp(lines);
      var n := Flush(batch);
      upserted := upserted + n;
    }
  }

  lemma {:induction false} PutSize(batch: seq<Row>, r: Row)
    ensures |batch| <= |Put(batch, r)| <= |batch| + 1
  {
    if batch != [] && batch[0].sourceId != r.sourceId {
      PutSize(batch[1..], r);
    }
  }

  /** Taking a usable line into the batch is one more upsert, and at most one more row. */
  lemma BatchStep(table: Table, batch: seq<Row>, start: Table, lines: seq<Line>, i: int)
    requires 0 <= i < |lines| && lines[i].Usable? && DistinctKeys(batch)
    requires UpsertEach(table, batch) == UpsertEach(start, Accepted(lines[..i]))
    ensures DistinctKeys(Put(batch, lines[i].row)) && |Put(batch, lines[i].row)| <= |batch| + 1
    ensures UpsertEach(table, Put(batch, lines[i].row)) == UpsertEach(start, Accepted(lines[..i + 1]))
  {
    PutIsUpsert(table, batch, lines[i].row);
    PutMembers(batch, lines[i].row);
    PutSize(batch, lines[i].row);
    AcceptedStep(start, lines, i);
  }

  lemma AcceptedStep(t: Table, lines: seq<Line>, i: int)
    requires 0 <= i < |lines| && lines[i].Usable?
    ensures UpsertEach(t, Accepted(lines[..i + 1])) == UpsertOne(UpsertEach(t, Accepted(lines[..i])), lines[i].row)
  {
    assert lines[..i + 1][..i] == lines[..i];
    var before := Accepted(lines[..i]);
    assert (before + [lines[i].row])[..|before|] == before;
  }

  /** Line i is the last usable line with the key. */
  ghost predicate IsLastLine(lines: seq<Line>, key: string, i: int) {
    && 0 <= i < |lines| && lines[i].Usable? && lines[i].row.sourceId == key
    && forall j :: i < j < |lines| ==> !(lines[j].Usable? && lines[j].row.sourceId == key)
  }

  /** The loaded table holds, under every key, the columns of the last usable line with that key, and is otherwise as before. */
  lemma {:induction false} LastLineWins(t: Table, lines: seq<Line>, key: string)
    ensures forall i :: IsLastLine(lines, key, i) ==>
              key in UpsertEach(t, Accepted(lines)) && UpsertEach(t, Accepted(lines))[key] == lines[i].row.columns
    ensures (forall i :: !IsLastLine(lines, key, i)) ==>
              (key in UpsertEach(t, Accepted(lines)) <==> key in t) &&
              (key in t ==> UpsertEach(t, Accepted(lines))[key] == t[key])
  {
    if lines != [] {
      var n := |lines| - 1;
      var before := lines[..n];
      LastLineWins(t, before, key);
      assert lines[..n + 1] == lines;
      if lines[n].Usable? { AcceptedStep(t, lines, n); }
      if lines[n].Usable? && lines[n].row.sourceId == key {
        assert IsLastLine(lines, key, n);
      } else {
        forall i ensures IsLastLine(lines, key, i) <==> IsLastLine(before, key, i) {}
      }
    }
  }
}
