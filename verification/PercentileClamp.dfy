/** Stage 3 of scoring: the full edge surface of a context, its 95th percentile, and the clamp to [0, 1]. */
module PercentileClamp {
  import opened RiskContexts

  // ---------- percentile_cont(0.95) ----------

  function Insert(x: real, s: seq<real>): seq<real> {
    if s == [] || x <= s[0] then [x] + s else [s[0]] + Insert(x, s[1..])
  }

  function Sort(s: seq<real>): seq<real> {
    if s == [] then [] else Insert(s[|s| - 1], Sort(s[..|s| - 1]))
  }

  ghost predicate Ascending(s: seq<real>) {
    forall i, j :: 0 <= i <= j < |s| ==> s[i] <= s[j]
  }

  lemma {:induction false} InsertSorts(x: real, s: seq<real>)
    requires Ascending(s)
    ensures Ascending(Insert(x, s)) && |Insert(x, s)| == |s| + 1
    ensures s != [] ==> Insert(x, s)[0] == x || Insert(x, s)[0] == s[0]
  {
    if s == [] || x <= s[0] {
    } else {
      InsertSorts(x, s[1..]);
    }
  }

  lemma {:induction false} InsertMultiset(x: real, s: seq<real>)
    ensures multiset(Insert(x, s)) == multiset(s) + multiset{x}
  {
    if s != [] && x > s[0] {
      InsertMultiset(x, s[1..]);
      assert s == [s[0]] + s[1..];
    }
  }

  lemma {:induction false} SortAscends(s: seq<real>)
    ensures Ascending(Sort(s)) && |Sort(s)| == |s|
  {
    if s != [] {
      SortAscends(s[..|s| - 1]);
      InsertSorts(s[|s| - 1], Sort(s[..|s| - 1]));
    }
  }

  lemma {:induction false} SortPermutes(s: seq<real>)
    ensures multiset(Sort(s)) == multiset(s)
  {
    if s != [] {
      SortPermutes(s[..|s| - 1]);
      InsertMultiset(s[|s| - 1], Sort(s[..|s| - 1]));
      assert s == s[..|s| - 1] + [s[|s| - 1]];
    }
  }

  lemma SortSorts(s: seq<real>)
    ensures Ascending(Sort(s)) && multiset(Sort(s)) == multiset(s) && |Sort(s)| == |s|
  {
    SortAscends(s);
    SortPermutes(s);
  }

  /** The row below the interpolation point 0.95 * (n - 1), and how far beyond it the point lies, in twentieths. */
  function LowRow(n: int): int { 19 * (n - 1) / 20 }

  function Twentieths(n: int): int { 19 * (n - 1) % 20 }

  function Interpolate(v: seq<real>): real
    requires v != []
  {
    var lo := LowRow(|v|);
    if Twentieths(|v|) == 0 then v[lo]
    else v[lo] + (v[lo + 1] - v[lo]) * (Twentieths(|v|) as real / 20.0)
  }

  function Percentile95(raws: seq<real>): real
    requires raws != []
  {
    SortSorts(raws);
    Interpolate(Sort(raws))
  }

  // ---------- the inserted rows ----------

  datatype ScoreRow = ScoreRow(edge: int, model: int, context: Context, raw: real, risk: real, p95: real)

  /** COALESCE(raw_score, 0) for every routable edge. */
  function Surface(edges: seq<int>, raw: map<(int, Context), real>, x: Context): (s: seq<real>)
    ensures |s| == |edges|
  {
    seq(|edges|, i requires 0 <= i < |edges| => if (edges[i], x) in raw then raw[(edges[i], x)] else 0.0)
  }

  function Clamp(raw: real, p95: real): real {
    if p95 > 0.0 then (if raw / p95 < 1.0 then raw / p95 else 1.0) else 0.0
  }

  function ContextRows(model: int, edges: seq<int>, raw: map<(int, Context), real>, x: Context): (rows: seq<ScoreRow>)
    ensures |rows| == |edges|
  {
    if edges == [] then []
    else
      var s := Surface(edges, raw, x);
      var p95 := Percentile95(s);
      seq(|edges|, i requires 0 <= i < |edges| => ScoreRow(edges[i], model, x, s[i], Clamp(s[i], p95), p95))
  }

  function RowsOver(model: int, edges: seq<int>, raw: map<(int, Context), real>, contexts: seq<Context>): seq<ScoreRow> {
    if contexts == [] then []
    else
      RowsOver(model, edges, raw, contexts[..|contexts| - 1]) + ContextRows(model, edges, raw, contexts[|contexts| - 1])
  }

  // ---------- laws of one context ----------

  /** How many values satisfy the test. */
  function Count(s: seq<real>, test: real -> bool): int {
    if s == [] then 0 else Count(s[1..], test) + if test(s[0]) then 1 else 0
  }

  lemma {:induction false} CountInsert(x: real, s: seq<real>, test: real -> bool)
    ensures Count(Insert(x, s), test) == Count(s, test) + if test(x) then 1 else 0
  {
    if s != [] && x > s[0] {
      CountInsert(x, s[1..], test);
    }
  }

  lemma {:induction false} CountAppend(s: seq<real>, x: real, test: real -> bool)
    ensures Count(s + [x], test) == Count(s, test) + if test(x) then 1 else 0
  {
    if s == [] {
      assert [x][1..] == [];
    } else {
      CountAppend(s[1..], x, test);
      assert (s + [x])[1..] == s[1..] + [x];
    }
  }

  lemma {:induction false} CountSort(s: seq<real>, test: real -> bool)
    ensures Count(Sort(s), test) == Count(s, test)
  {
    if s != [] {
      var before, x := s[..|s| - 1], s[|s| - 1];
      CountSort(before, test);
      CountInsert(x, Sort(before), test);
      CountAppend(before, x, test);
      assert s == before + [x];
    }
  }

  /** Only the values from position lo up to hi can satisfy the test. */
  lemma {:induction false} CountBound(s: seq<real>, test: real -> bool, lo: int, hi: int)
    requires 0 <= lo <= hi <= |s| && forall i :: 0 <= i < |s| && (i < lo || hi <= i) ==> !test(s[i])
    ensures 0 <= Count(s, test) <= hi - lo
  {
    if s != [] {
      CountBound(s[1..], test, if lo == 0 then 0 else lo - 1, if hi == 0 then 0 else hi - 1);
    }
  }

  lemma InterpolateBetween(v: seq<real>)
    requires v != [] && Ascending(v)
    ensures v[LowRow(|v|)] <= Interpolate(v)
    ensures Twentieths(|v|) != 0 ==> Interpolate(v) <= v[LowRow(|v|) + 1]
  {
    var lo, part := LowRow(|v|), Twentieths(|v|) as real / 20.0;
    if Twentieths(|v|) != 0 {
      var gap := v[lo + 1] - v[lo];
      assert v[lo] <= v[lo + 1];
      Fraction(gap, part);
      assert Interpolate(v) == v[lo] + gap * part;
    }
  }

  lemma Fraction(gap: real, part: real)
    requires gap >= 0.0 && 0.0 <= part <= 1.0
    ensures 0.0 <= gap * part <= gap
  {
    assert gap * (1.0 - part) >= 0.0;
  }

  function Above(t: real): real -> bool { x => x > t }

  function Below(t: real): real -> bool { x => x < t }

  /** Of the n edges at most ceil((n - 1) / 20) score strictly above the interpolated percentile, and at most
  ceil(19 (n - 1) / 20) strictly below it. */
  lemma FewBeyondPercentile(raws: seq<real>)
    requires raws != []
    ensures Count(raws, Above(Percentile95(raws))) <= (|raws| - 1 + 19) / 20
    ensures Count(raws, Below(Percentile95(raws))) <= (19 * (|raws| - 1) + 19) / 20
  {
    var v, t := Sort(raws), Percentile95(raws);
    SortSorts(raws);
    InterpolateBetween(v);
    CountSort(raws, Above(t));
    CountSort(raws, Below(t));
    CountBound(v, Above(t), LowRow(|v|) + 1, |v|);
    CountBound(v, Below(t), 0, if Twentieths(|v|) == 0 then LowRow(|v|) else LowRow(|v|) + 1);
  }

  /** The percentile does not depend on the order in which the surface lists the edges. */
  lemma PercentileIgnoresOrder(a: seq<real>, b: seq<real>)
    requires a != [] && multiset(a) == multiset(b)
    ensures b != [] && Percentile95(a) == Percentile95(b)
  {
    SameSize(a, b);
    SortSorts(a);
    SortSorts(b);
    AscendingUnique(Sort(a), Sort(b));
  }

  /** The ordered values read at a position between their rows, in proportion to the distance from each. */
  ghost function ReadAt(v: seq<real>, position: real): real
    requires 0.0 <= position <= (|v| - 1) as real
  {
    var low := position.Floor;
    var share := position - low as real;
    if share == 0.0 then v[low] else (1.0 - share) * v[low] + share * v[low + 1]
  }

  /** Where the 95th percentile of n values stands. */
  ghost function Position95(n: int): real {
    0.95 * (n - 1) as real
  }

  /** The percentile is percentile_cont(0.95): the ordered values read at 0.95 * (n - 1). */
  lemma PercentileInterpolates(raws: seq<real>, v: seq<real>)
    requires raws != [] && Ascending(v) && multiset(v) == multiset(raws)
    ensures |v| == |raws| && Percentile95(raws) == ReadAt(v, Position95(|raws|))
  {
    SortSorts(raws);
    SameSize(v, raws);
    AscendingUnique(Sort(raws), v);
    InterpolateReads(v);
  }

  lemma InterpolateReads(v: seq<real>)
    requires v != []
    ensures Interpolate(v) == ReadAt(v, Position95(|v|))
  {
    var lo, part := LowRow(|v|), Twentieths(|v|) as real / 20.0;
    PositionSplits(|v|, Position95(|v|));
    if part != 0.0 {
      Mixed(v[lo], v[lo + 1], part);
    }
  }

  lemma PositionSplits(n: int, position: real)
    requires n >= 1 && position == Position95(n)
    ensures position.Floor == LowRow(n) && position - position.Floor as real == Twentieths(n) as real / 20.0
  {
    assert 20 * LowRow(n) + Twentieths(n) == 19 * (n - 1);
  }

  lemma Mixed(x: real, y: real, part: real)
    ensures x + (y - x) * part == (1.0 - part) * x + part * y
  {
  }

  /** The value t steps of size d above a. */
  function Spaced(a: real, d: real, t: real): real {
    a + d * t
  }

  /** Evenly spaced values have their percentile at 0.95 of the way. */
  lemma EvenlySpacedPercentile(s: seq<real>, a: real, d: real)
    requires s != [] && d >= 0.0 && forall i :: 0 <= i < |s| ==> s[i] == Spaced(a, d, i as real)
    ensures Percentile95(s) == Spaced(a, d, Position95(|s|))
  {
    SpacedAscends(s, a, d);
    PercentileInterpolates(s, s);
    SpacedRead(s, a, d, Position95(|s|));
  }

  lemma SpacedAscends(s: seq<real>, a: real, d: real)
    requires d >= 0.0 && forall i :: 0 <= i < |s| ==> s[i] == Spaced(a, d, i as real)
    ensures Ascending(s)
  {
    forall i, j | 0 <= i <= j < |s| ensures s[i] <= s[j] {
      SpacedUp(d, i, j);
    }
  }

  lemma SpacedRead(s: seq<real>, a: real, d: real, position: real)
    requires 0.0 <= position <= (|s| - 1) as real && forall i :: 0 <= i < |s| ==> s[i] == Spaced(a, d, i as real)
    ensures ReadAt(s, position) == Spaced(a, d, position)
  {
    var low, share := position.Floor, position - position.Floor as real;
    SpacedBetween(a, d, low, share);
    assert s[low] == Spaced(a, d, low as real);
    if share != 0.0 {
      assert s[low + 1] == Spaced(a, d, (low + 1) as real);
    }
  }

  lemma SpacedUp(d: real, i: int, j: int)
    requires d >= 0.0 && i <= j
    ensures d * i as real <= d * j as real
  {
    assert d * (j - i) as real >= 0.0;
  }

  lemma SpacedBetween(a: real, d: real, low: int, share: real)
    ensures (1.0 - share) * (a + d * low as real) + share * (a + d * (low + 1) as real) == a + d * (low as real + share)
  {
    assert d * (low + 1) as real == d * low as real + d;
  }

  lemma HeadIsLeast(a: seq<real>, b: seq<real>)
    requires Ascending(a) && a != [] && b != [] && multiset(a) == multiset(b)
    ensures a[0] <= b[0]
  {
    assert b[0] in multiset(b);
    assert b[0] in a;
    var j :| 0 <= j < |a| && a[j] == b[0];
  }

  lemma TailMultiset(a: seq<real>)
    requires a != []
    ensures multiset(a[1..]) == multiset(a) - multiset{a[0]} && a == [a[0]] + a[1..]
  {
    assert a == [a[0]] + a[1..];
  }

  lemma SameSize(a: seq<real>, b: seq<real>)
    requires multiset(a) == multiset(b)
    ensures |a| == |b|
  {
    assert |a| == |multiset(a)| == |multiset(b)| == |b|;
  }

  lemma TailsMatch(a: seq<real>, b: seq<real>)
    requires Ascending(a) && Ascending(b) && a != [] && b != [] && multiset(a) == multiset(b) && a[0] == b[0]
    ensures Ascending(a[1..]) && Ascending(b[1..]) && multiset(a[1..]) == multiset(b[1..])
    ensures a == [a[0]] + a[1..] && b == [b[0]] + b[1..]
  {
    TailMultiset(a);
    TailMultiset(b);
  }

  lemma {:induction false} AscendingUnique(a: seq<real>, b: seq<real>)
    requires Ascending(a) && Ascending(b) && multiset(a) == multiset(b)
    ensures a == b
  {
    SameSize(a, b);
    if a != [] {
      HeadIsLeast(a, b);
      HeadIsLeast(b, a);
      TailsMatch(a, b);
      AscendingUnique(a[1..], b[1..]);
    }
  }

  lemma ClampLaws(r: real, s: real, p95: real)
    requires r <= s
    ensures Clamp(r, p95) <= Clamp(s, p95)
    ensures r >= 0.0 ==> 0.0 <= Clamp(r, p95) <= 1.0
    ensures p95 > 0.0 ==> (Clamp(r, p95) == 1.0 <==> r >= p95)
    ensures p95 > 0.0 && r <= p95 ==> Clamp(r, p95) * p95 == r
    ensures p95 <= 0.0 ==> Clamp(r, p95) == 0.0
  {
  }

  /** The risk is the raw score in units of a positive percentile, cut at 1; zero without one. */
  predicate IsClamped(row: ScoreRow, p95: real) {
    && row.p95 == p95 && 0.0 <= row.risk <= 1.0 && (p95 == 0.0 ==> row.risk == 0.0)
    && (p95 > 0.0 ==> (row.risk == 1.0 <==> row.raw >= p95) && (row.raw <= p95 ==> row.risk * p95 == row.raw))
  }

  lemma ClampedRow(edge: int, model: int, x: Context, raw: real, p95: real)
    requires raw >= 0.0
    ensures IsClamped(ScoreRow(edge, model, x, raw, Clamp(raw, p95), p95), p95)
  {
    ClampLaws(raw, raw, p95);
  }

  /** Everything a context's rows promise, for non-negative raw scores. */
  lemma ContextSurface(model: int, edges: seq<int>, raw: map<(int, Context), real>, x: Context)
    requires edges != [] && forall k :: k in raw ==> raw[k] >= 0.0
    ensures var rows, s := ContextRows(model, edges, raw, x), Surface(edges, raw, x);
            && (forall i :: 0 <= i < |edges| ==>
                  rows[i].edge == edges[i] && rows[i].raw == s[i] && IsClamped(rows[i], Percentile95(s)))
            && (forall i, j :: 0 <= i < |edges| && 0 <= j < |edges| && rows[i].raw <= rows[j].raw ==> rows[i].risk <= rows[j].risk)
  {
    var s := Surface(edges, raw, x);
    var p95 := Percentile95(s);
    forall i, j | 0 <= i < |edges| && 0 <= j < |edges| && s[i] <= s[j]
      ensures Clamp(s[i], p95) <= Clamp(s[j], p95)
    {
      ClampLaws(s[i], s[j], p95);
    }
    forall i | 0 <= i < |edges| ensures IsClamped(ScoreRow(edges[i], model, x, s[i], Clamp(s[i], p95), p95), p95) {
      ClampedRow(edges[i], model, x, s[i], p95);
    }
  }

  // ---------- all nine contexts ----------

  /** A row exists for exactly the (edge, context) combinations asked for. */
  lemma {:induction false} RowsCover(model: int, edges: seq<int>, raw: map<(int, Context), real>, contexts: seq<Context>,
                                     e: int, x: Context)
    ensures (exists r :: r in RowsOver(model, edges, raw, contexts) && r.edge == e && r.context == x) <==>
            e in edges && x in contexts
    decreases |contexts|
  {
    if contexts != [] {
      var before, y := contexts[..|contexts| - 1], contexts[|contexts| - 1];
      RowsCover(model, edges, raw, before, e, x);
      assert contexts == before + [y];
      var old_, new_ := RowsOver(model, edges, raw, before), ContextRows(model, edges, raw, y);
      assert forall r :: r in old_ + new_ <==> r in old_ || r in new_;
      ContextRowsCover(model, edges, raw, y, e);
    }
  }

  lemma ContextRowsCover(model: int, edges: seq<int>, raw: map<(int, Context), real>, x: Context, e: int)
    ensures (exists r :: r in ContextRows(model, edges, raw, x) && r.edge == e) <==> e in edges
    ensures forall r :: r in ContextRows(model, edges, raw, x) ==> r.context == x
  {
    var rows := ContextRows(model, edges, raw, x);
    if e in edges {
      var i :| 0 <= i < |edges| && edges[i] == e;
      assert rows[i] in rows;
    }
  }

  /** What an inserted row carries: its own edge's raw score in its own context, zero where no crime reaches,
  clamped at the percentile of that context over all edges. */
  ghost predicate IsInserted(r: ScoreRow, model: int, edges: seq<int>, raw: map<(int, Context), real>) {
    && r.model == model && r.edge in edges
    && r.raw == (if (r.edge, r.context) in raw then raw[(r.edge, r.context)] else 0.0)
    && r.p95 == Percentile95(Surface(edges, raw, r.context))
    && (r.raw >= 0.0 ==> IsClamped(r, r.p95))
  }

  lemma {:induction false} RowsInserted(model: int, edges: seq<int>, raw: map<(int, Context), real>, contexts: seq<Context>)
    ensures forall r :: r in RowsOver(model, edges, raw, contexts) ==> IsInserted(r, model, edges, raw)
  {
    if contexts != [] {
      var before, x := contexts[..|contexts| - 1], contexts[|contexts| - 1];
      RowsInserted(model, edges, raw, before);
      forall r | r in ContextRows(model, edges, raw, x) ensures IsInserted(r, model, edges, raw) {
        ContextRowInserted(model, edges, raw, x, r);
      }
    }
  }

  lemma ContextRowInserted(model: int, edges: seq<int>, raw: map<(int, Context), real>, x: Context, r: ScoreRow)
    requires r in ContextRows(model, edges, raw, x)
    ensures IsInserted(r, model, edges, raw)
  {
    var i :| 0 <= i < |edges| && ContextRows(model, edges, raw, x)[i] == r;
    if r.raw >= 0.0 { ClampedRow(r.edge, model, x, r.raw, r.p95); }
  }

  ghost predicate EachOnce(rows: seq<ScoreRow>) {
    forall i, j :: 0 <= i < j < |rows| ==> rows[i].edge != rows[j].edge || rows[i].context != rows[j].context
  }

  lemma ConcatOnce(a: seq<ScoreRow>, b: seq<ScoreRow>, x: Context)
    requires EachOnce(a) && EachOnce(b)
    requires (forall r :: r in a ==> r.context != x) && (forall r :: r in b ==> r.context == x)
    ensures EachOnce(a + b)
  {
  }

  /** No (edge, context) combination is scored twice, so the insert respects the primary key. */
  lemma {:induction false} RowsOnce(model: int, edges: seq<int>, raw: map<(int, Context), real>, contexts: seq<Context>)
    requires forall i, j :: 0 <= i < j < |edges| ==> edges[i] != edges[j]
    requires forall i, j :: 0 <= i < j < |contexts| ==> contexts[i] != contexts[j]
    ensures EachOnce(RowsOver(model, edges, raw, contexts))
    decreases |contexts|
  {
    if contexts != [] {
      var before, x := contexts[..|contexts| - 1], contexts[|contexts| - 1];
      RowsOnce(model, edges, raw, before);
      var earlier := RowsOver(model, edges, raw, before);
      forall r | r in earlier ensures r.context != x {
        RowsCover(model, edges, raw, before, r.edge, r.context);
        assert r in earlier && r.edge == r.edge;
        assert r.context in before;
      }
      ConcatOnce(earlier, ContextRows(model, edges, raw, x), x);
    }
  }

  lemma {:induction false} RowsCount(model: int, edges: seq<int>, raw: map<(int, Context), real>, contexts: seq<Context>)
    ensures |RowsOver(model, edges, raw, contexts)| == |contexts| * |edges|
  {
    if contexts != [] {
      var before := contexts[..|contexts| - 1];
      RowsCount(model, edges, raw, before);
      OneMore(|before|, |edges|);
    }
  }

  lemma OneMore(n: int, m: int)
    ensures (n + 1) * m == n * m + m
  {
  }

  /** The whole insert: each of the nine contexts scores every edge exactly once. */
  lemma NineContexts(model: int, edges: seq<int>, raw: map<(int, Context), real>)
    requires forall i, j :: 0 <= i < j < |edges| ==> edges[i] != edges[j]
    ensures EachOnce(RowsOver(model, edges, raw, CONTEXTS)) && |RowsOver(model, edges, raw, CONTEXTS)| == 9 * |edges|
  {
    RowsOnce(model, edges, raw, CONTEXTS);
    RowsCount(model, edges, raw, CONTEXTS);
  }

  // ---------- the stored table ----------

  function WithoutModel(rows: seq<ScoreRow>, model: int): seq<ScoreRow> {
    if rows == [] then []
    else
      var before := WithoutModel(rows[..|rows| - 1], model);
      if rows[|rows| - 1].model == model then before else before + [rows[|rows| - 1]]
  }

  function OfModel(rows: seq<ScoreRow>, model: int): seq<ScoreRow> {
    if rows == [] then []
    else
      var before := OfModel(rows[..|rows| - 1], model);
      if rows[|rows| - 1].model == model then before + [rows[|rows| - 1]] else before
  }

  /** A model's rows and the others make up the table, and neither part holds a row of the other. */
  lemma {:induction false} ModelsPartition(rows: seq<ScoreRow>, model: int)
    ensures multiset(rows) == multiset(OfModel(rows, model)) + multiset(WithoutModel(rows, model))
    ensures forall r :: r in OfModel(rows, model) ==> r.model == model
    ensures forall r :: r in WithoutModel(rows, model) ==> r.model != model
  {
    if rows != [] {
      ModelsPartition(rows[..|rows| - 1], model);
      assert rows == rows[..|rows| - 1] + [rows[|rows| - 1]];
    }
  }

  /** edge_risk_scores; recomputing a model version deletes its rows, then inserts the new ones. */
  class ScoreTable {
    var rows: seq<ScoreRow>

    /** The model's rows are then exactly the new ones; the rows of every other model are the same, in the same order. */
    method Recompute(model: int, edges: seq<int>, raw: map<(int, Context), real>)
      modifies this
      ensures OfModel(rows, model) == RowsOver(model, edges, raw, CONTEXTS)
      ensures WithoutModel(rows, model) == WithoutModel(old(rows), model)
      ensures forall other :: other != model ==> OfModel(rows, other) == OfModel(old(rows), other)
      ensures rows == WithoutModel(old(rows), model) + RowsOver(model, edges, raw, CONTEXTS)
    {
      ghost var before, added := rows, RowsOver(model, edges, raw, CONTEXTS);
      rows := WithoutModel(rows, model);
      rows := rows + RowsOver(model, edges, raw, CONTEXTS);
      RowsOverOfModel(model, edges, raw, CONTEXTS);
      ReplacedRows(before, added, model);
    }
  }

  lemma {:induction false} RowsOverOfModel(model: int, edges: seq<int>, raw: map<(int, Context), real>, contexts: seq<Context>)
    ensures forall r :: r in RowsOver(model, edges, raw, contexts) ==> r.model == model
  {
    if contexts != [] {
      RowsOverOfModel(model, edges, raw, contexts[..|contexts| - 1]);
    }
  }

  lemma ReplacedRows(before: seq<ScoreRow>, added: seq<ScoreRow>, model: int)
    requires forall r :: r in added ==> r.model == model
    ensures var rows := WithoutModel(before, model) + added;
            && OfModel(rows, model) == added && WithoutModel(rows, model) == WithoutModel(before, model)
            && forall other :: other != model ==> OfModel(rows, other) == OfModel(before, other)
  {
    var kept := WithoutModel(before, model);
    OneModel(added, model);
    ModelsPartition(before, model);
    NotOfModel(kept, model);
    OfModelConcat(kept, added, model);
    WithoutModelConcat(kept, added, model);
    WithoutModelTwice(before, model);
    forall other | other != model ensures OfModel(kept + added, other) == OfModel(before, other) {
      OfModelConcat(kept, added, other);
      NotOfModel(added, other);
      OtherModelKept(before, model, other);
    }
  }

  lemma {:induction false} OneModel(rows: seq<ScoreRow>, model: int)
    requires forall r :: r in rows ==> r.model == model
    ensures OfModel(rows, model) == rows && WithoutModel(rows, model) == []
  {
    if rows != [] {
      assert rows[|rows| - 1] in rows;
      OneModel(rows[..|rows| - 1], model);
    }
  }

  lemma {:induction false} NotOfModel(rows: seq<ScoreRow>, model: int)
    requires forall r :: r in rows ==> r.model != model
    ensures OfModel(rows, model) == []
  {
    if rows != [] {
      assert rows[|rows| - 1] in rows;
      NotOfModel(rows[..|rows| - 1], model);
    }
  }

  lemma {:induction false} OfModelConcat(a: seq<ScoreRow>, b: seq<ScoreRow>, model: int)
    ensures OfModel(a + b, model) == OfModel(a, model) + OfModel(b, model)
    decreases |b|
  {
    if b == [] {
      assert a + b == a;
    } else {
      OfModelConcat(a, b[..|b| - 1], model);
      assert (a + b)[..|a + b| - 1] == a + b[..|b| - 1];
    }
  }

  lemma {:induction false} OtherModelKept(rows: seq<ScoreRow>, model: int, other: int)
    requires other != model
    ensures OfModel(WithoutModel(rows, model), other) == OfModel(rows, other)
  {
    if rows != [] {
      var before, last := rows[..|rows| - 1], rows[|rows| - 1];
      OtherModelKept(before, model, other);
      OfModelConcat(WithoutModel(before, model), [last], other);
      assert [last][..0] == [];
    }
  }

  lemma {:induction false} WithoutModelConcat(a: seq<ScoreRow>, b: seq<ScoreRow>, model: int)
    ensures WithoutModel(a + b, model) == WithoutModel(a, model) + WithoutModel(b, model)
    decreases |b|
  {
    if b == [] {
      assert a + b == a;
    } else {
      WithoutModelConcat(a, b[..|b| - 1], model);
      assert (a + b)[..|a + b| - 1] == a + b[..|b| - 1];
    }
  }

  lemma {:induction false} WithoutModelTwice(rows: seq<ScoreRow>, model: int)
    ensures WithoutModel(WithoutModel(rows, model), model) == WithoutModel(rows, model)
  {
    if rows != [] {
      WithoutModelTwice(rows[..|rows| - 1], model);
      if rows[|rows| - 1].model != model {
        WithoutModelConcat(WithoutModel(rows[..|rows| - 1], model), [rows[|rows| - 1]], model);
        assert [rows[|rows| - 1]][..0] == [];
      }
    }
  }

  /** Recomputing a model twice leaves the table as recomputing it once does. */
  lemma RecomputeIdempotent(rows: seq<ScoreRow>, model: int, edges: seq<int>, raw: map<(int, Context), real>)
    ensures var once := WithoutModel(rows, model) + RowsOver(model, edges, raw, CONTEXTS);
            WithoutModel(once, model) + RowsOver(model, edges, raw, CONTEXTS) == once
  {
    RowsOverOfModel(model, edges, raw, CONTEXTS);
    ReplaceTwice(rows, RowsOver(model, edges, raw, CONTEXTS), model);
  }

  lemma ReplaceTwice(rows: seq<ScoreRow>, added: seq<ScoreRow>, model: int)
    requires forall r :: r in added ==> r.model == model
    ensures WithoutModel(WithoutModel(rows, model) + added, model) + added == WithoutModel(rows, model) + added
  {
    ReplacedRows(rows, added, model);
  }
}
