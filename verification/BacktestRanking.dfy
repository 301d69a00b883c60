/** The temporal backtest: how much future crime the riskiest part of the network captures, and its density by decile. */
module BacktestRanking {

  /** An edge of one context's frame, with its predicted risk and its future score. */
  datatype Edge = Edge(id: int, length: real, risk: real, future: real)

  /** Positive lengths, and future scores that are sums of non-negative contributions. */
  ghost predicate IsFrame(frame: seq<Edge>) {
    forall e :: e in frame ==> e.length > 0.0 && e.future >= 0.0
  }

  /** ORDER BY risk DESC, id ASC. */
  ghost predicate IsRanked(frame: seq<Edge>) {
    forall i, j :: 0 <= i < j < |frame| ==>
      frame[i].risk > frame[j].risk || (frame[i].risk == frame[j].risk && frame[i].id < frame[j].id)
  }

  function Lengths(frame: seq<Edge>): real {
    if frame == [] then 0.0 else Lengths(frame[..|frame| - 1]) + frame[|frame| - 1].length
  }

  function Future(frame: seq<Edge>): real {
    if frame == [] then 0.0 else Future(frame[..|frame| - 1]) + frame[|frame| - 1].future
  }

  lemma {:induction false} SumsGrow(frame: seq<Edge>, i: int, j: int)
    requires IsFrame(frame) && 0 <= i <= j <= |frame|
    ensures 0.0 <= Lengths(frame[..i]) <= Lengths(frame[..j]) && 0.0 <= Future(frame[..i]) <= Future(frame[..j])
    ensures i < j ==> Lengths(frame[..i]) < Lengths(frame[..j])
    decreases i + j
  {
    if i < j {
      SumsGrow(frame, i, j - 1);
      assert frame[..j][..j - 1] == frame[..j - 1] && frame[j - 1] in frame;
    } else if i > 0 {
      SumsGrow(frame, i - 1, i - 1);
      assert frame[..i][..i - 1] == frame[..i - 1] && frame[i - 1] in frame;
    }
  }

  // ---------- the captured share ----------

  /** frame[cumulative <= cutoff]: every row whose running length is within the cutoff, wherever it stands. */
  function WithinCutoff(frame: seq<Edge>, n: int, cutoff: real): seq<Edge>
    requires 0 <= n <= |frame|
    decreases n
  {
    if n == 0 then []
    else
      var before := WithinCutoff(frame, n - 1, cutoff);
      if Lengths(frame[..n]) <= cutoff then before + [frame[n - 1]] else before
  }

  function Cutoff(frame: seq<Edge>, fraction: real): real {
    Lengths(frame) * fraction
  }

  /** The first k rows are the longest prefix within the cutoff, or the first row alone. */
  ghost predicate IsCut(frame: seq<Edge>, k: int, cutoff: real) {
    && 1 <= k <= |frame|
    && (k > 1 ==> Lengths(frame[..k]) <= cutoff)
    && (k < |frame| ==> Lengths(frame[..k + 1]) > cutoff)
  }

  /** The top length fraction; the first row alone when even it is longer than the cutoff. */
  function Top(frame: seq<Edge>, fraction: real): seq<Edge> {
    var top := WithinCutoff(frame, |frame|, Cutoff(frame, fraction));
    if top == [] && frame != [] then frame[..1] else top
  }

  function ShareCaptured(frame: seq<Edge>, fraction: real): real {
    if Future(frame) > 0.0 then Future(Top(frame, fraction)) / Future(frame) else 0.0
  }

  /** The selected rows are a prefix of the ranking: the longest whose length is within the cutoff. */
  lemma {:induction false} CutoffIsPrefix(frame: seq<Edge>, n: int, cutoff: real) returns (k: int)
    requires IsFrame(frame) && 0 <= n <= |frame|
    ensures 0 <= k <= n && WithinCutoff(frame, n, cutoff) == frame[..k]
    ensures forall i :: 1 <= i <= n ==> (Lengths(frame[..i]) <= cutoff <==> i <= k)
    decreases n
  {
    if n == 0 {
      k := 0;
    } else {
      k := CutoffIsPrefix(frame, n - 1, cutoff);
      if Lengths(frame[..n]) <= cutoff {
        if k < n - 1 {
          SumsGrow(frame, k + 1, n);
        }
        assert k == n - 1;
        k := n;
        assert frame[..n] == frame[..n - 1] + [frame[n - 1]];
      }
    }
  }

  lemma TopIsPrefix(frame: seq<Edge>, fraction: real) returns (k: int)
    requires IsFrame(frame) && frame != []
    ensures 1 <= k <= |frame| && Top(frame, fraction) == frame[..k]
    ensures IsCut(frame, k, Lengths(frame) * fraction)
  {
    k := CutoffIsPrefix(frame, |frame|, Cutoff(frame, fraction));
    if k == 0 {
      SumsGrow(frame, 1, |frame|);
      if |frame| > 1 { SumsGrow(frame, 1, 2); }
      k := 1;
    }
  }

  /** No edge left out is predicted riskier than one taken in. */
  lemma TopIsRiskiest(frame: seq<Edge>, fraction: real, e: Edge, f: Edge)
    requires IsFrame(frame) && IsRanked(frame) && e in Top(frame, fraction) && f in frame && f !in Top(frame, fraction)
    ensures e.risk >= f.risk
  {
    assert frame != [];
    var k := TopIsPrefix(frame, fraction);
  }

  /** A larger fraction takes a prefix at least as long. */
  lemma TopGrows(frame: seq<Edge>, small: real, large: real) returns (k: int, m: int)
    requires IsFrame(frame) && frame != [] && small <= large
    ensures 1 <= k <= m <= |frame| && Top(frame, small) == frame[..k] && Top(frame, large) == frame[..m]
  {
    k := TopIsPrefix(frame, small);
    m := TopIsPrefix(frame, large);
    Widen(frame, small, large);
    CutsOrdered(frame, k, Cutoff(frame, small), m, Cutoff(frame, large));
  }

  lemma CutsOrdered(frame: seq<Edge>, k: int, small: real, m: int, large: real)
    requires IsFrame(frame) && IsCut(frame, k, small) && IsCut(frame, m, large) && small <= large
    ensures k <= m
  {
    if m + 1 <= k {
      SumsGrow(frame, m + 1, k);
    }
  }

  /** The share of the top fraction times the total is what the top fraction holds; without a total it is zero. */
  lemma ShareWrittenOut(frame: seq<Edge>, fraction: real)
    ensures Future(frame) > 0.0 ==> ShareCaptured(frame, fraction) * Future(frame) == Future(Top(frame, fraction))
    ensures Future(frame) <= 0.0 ==> ShareCaptured(frame, fraction) == 0.0
  {
  }

  /** A captured share lies in [0, 1] and grows with the fraction, fallback row included. */
  lemma ShareGrows(frame: seq<Edge>, small: real, large: real)
    requires IsFrame(frame) && small <= large
    ensures 0.0 <= ShareCaptured(frame, small) <= ShareCaptured(frame, large) <= 1.0
  {
    if frame != [] {
      var k, m := TopGrows(frame, small, large);
      SumsGrow(frame, k, m);
      SumsGrow(frame, m, |frame|);
      assert frame[..|frame|] == frame;
      Shares(Future(frame[..k]), Future(frame[..m]), Future(frame));
    }
  }

  lemma Shares(a: real, b: real, whole: real)
    requires 0.0 <= a <= b <= whole
    ensures whole > 0.0 ==> 0.0 <= a / whole <= b / whole <= 1.0
  {
  }

  lemma Widen(frame: seq<Edge>, small: real, large: real)
    requires IsFrame(frame) && small <= large
    ensures Cutoff(frame, small) <= Cutoff(frame, large)
  {
    SumsGrow(frame, 0, |frame|);
    assert frame[..|frame|] == frame;
    assert Lengths(frame) * (large - small) >= 0.0;
  }

  // ---------- decile densities ----------

  /** Rows in ascending order of predicted risk. */
  function Reversed(frame: seq<Edge>): (r: seq<Edge>)
    ensures |r| == |frame|
  {
    seq(|frame|, i requires 0 <= i < |frame| => frame[|frame| - 1 - i])
  }

  /** The running length of row i, as a share of the whole. */
  function Bound(rows: seq<Edge>, i: int): real
    requires 0 <= i < |rows| && Lengths(rows) != 0.0
  {
    Lengths(rows[..i + 1]) / Lengths(rows)
  }

  predicate InDecile(bound: real, d: int) {
    d as real / 10.0 < bound <= (d + 1) as real / 10.0
  }

  /** Total of the rows among the first n that fall in decile d: their lengths, or their future scores. */
  function ChunkSum(rows: seq<Edge>, n: int, d: int, lengths: bool): real
    requires 0 <= n <= |rows| && Lengths(rows) != 0.0
    decreases n
  {
    if n == 0 then 0.0
    else
      ChunkSum(rows, n - 1, d, lengths) +
      if InDecile(Bound(rows, n - 1), d) then (if lengths then rows[n - 1].length else rows[n - 1].future) else 0.0
  }

  /** x spread over the length of decile d makes up its future score; an empty decile has density zero. */
  ghost predicate IsDensity(x: real, rows: seq<Edge>, d: int)
    requires Lengths(rows) != 0.0
  {
    var length, future := ChunkSum(rows, |rows|, d, true), ChunkSum(rows, |rows|, d, false);
    x * length == future && (length == 0.0 ==> x == 0.0)
  }

  /** The running lengths as shares of the whole. */
  method BoundsOf(rows: seq<Edge>) returns (bounds: seq<real>)
    requires Lengths(rows) != 0.0
    ensures |bounds| == |rows| && forall i :: 0 <= i < |rows| ==> bounds[i] == Bound(rows, i)
  {
    var total := 0.0;
    for i := 0 to |rows|
      invariant total == Lengths(rows[..i])
    {
      assert rows[..i + 1][..i] == rows[..i];
      total := total + rows[i].length;
    }
    assert rows[..|rows|] == rows;
    var cumulative := 0.0;
    bounds := [];
    for i := 0 to |rows|
      invariant cumulative == Lengths(rows[..i])
      invariant |bounds| == i && forall k :: 0 <= k < i ==> bounds[k] == Bound(rows, k)
    {
      assert rows[..i + 1][..i] == rows[..i];
      cumulative := cumulative + rows[i].length;
      bounds := bounds + [cumulative / total];
    }
  }

  /** The length and the future score of the rows that the mask of decile d selects. */
  method ChunkTotals(rows: seq<Edge>, bounds: seq<real>, d: int) returns (length: real, future: real)
    requires Lengths(rows) != 0.0 && |bounds| == |rows| && forall i :: 0 <= i < |rows| ==> bounds[i] == Bound(rows, i)
    ensures length == ChunkSum(rows, |rows|, d, true) && future == ChunkSum(rows, |rows|, d, false)
  {
    length, future := 0.0, 0.0;
    for i := 0 to |rows|
      invariant length == ChunkSum(rows, i, d, true) && future == ChunkSum(rows, i, d, false)
    {
      if bounds[i] > d as real / 10.0 && bounds[i] <= (d + 1) as real / 10.0 {
        length, future := length + rows[i].length, future + rows[i].future;
      }
    }
  }

  /** Densities of the ten deciles, decile 0 the lowest predicted risk; weighted by the decile lengths they give
  back the total future score. */
  method DecileDensities(frame: seq<Edge>) returns (densities: seq<real>)
    requires IsFrame(frame) && frame != []
    ensures Lengths(Reversed(frame)) > 0.0 && |densities| == 10
    ensures forall d :: 0 <= d < 10 ==> IsDensity(densities[d], Reversed(frame), d)
    ensures Regained(densities, Reversed(frame), 10) == Future(frame)
  {
    var ascending := Reversed(frame);
    ReversedIsFrame(frame);
    var bounds := BoundsOf(ascending);
    densities := [];
    for d := 0 to 10
      invariant |densities| == d && forall c :: 0 <= c < d ==> IsDensity(densities[c], ascending, c)
    {
      var density := DensityOf(ascending, bounds, d);
      densities := densities + [density];
    }
    DensitiesConserveFuture(frame, densities);
  }

  method DensityOf(rows: seq<Edge>, bounds: seq<real>, d: int) returns (density: real)
    requires IsFrame(rows) && Lengths(rows) > 0.0
    requires |bounds| == |rows| && forall i :: 0 <= i < |rows| ==> bounds[i] == Bound(rows, i)
    ensures IsDensity(density, rows, d)
  {
    var length, future := ChunkTotals(rows, bounds, d);
    ChunkSigns(rows, |rows|, d);
    density := if length > 0.0 then future / length else 0.0;
  }

  /** Deciles rise with the predicted risk: in a ranked frame no edge of a lower decile is riskier than one of a higher. */
  lemma DecilesFollowRisk(frame: seq<Edge>, i: int, c: int, j: int, d: int)
    requires IsFrame(frame) && IsRanked(frame) && 0 <= i < |frame| && 0 <= j < |frame| && c < d
    requires Lengths(Reversed(frame)) != 0.0 && InDecile(Bound(Reversed(frame), i), c) && InDecile(Bound(Reversed(frame), j), d)
    ensures Reversed(frame)[i].risk <= Reversed(frame)[j].risk
  {
    var rows := Reversed(frame);
    ReversedIsFrame(frame);
    DecileOrder(Bound(rows, i), c, Bound(rows, j), d);
    if j <= i {
      SumsGrow(rows, j + 1, i + 1);
      BoundsRise(Lengths(rows[..j + 1]), Lengths(rows[..i + 1]), Lengths(rows));
    }
  }

  lemma DecileOrder(x: real, c: int, y: real, d: int)
    requires InDecile(x, c) && InDecile(y, d) && c < d
    ensures x < y
  {
    assert (c + 1) as real <= d as real;
  }

  lemma BoundsRise(a: real, b: real, whole: real)
    requires a <= b && whole > 0.0
    ensures a / whole <= b / whole
  {
    assert b / whole - a / whole == (b - a) / whole;
  }

  lemma ReversedIsFrame(frame: seq<Edge>)
    requires IsFrame(frame) && frame != []
    ensures IsFrame(Reversed(frame)) && Lengths(Reversed(frame)) > 0.0
  {
    var rows := Reversed(frame);
    forall i | 0 <= i < |rows| ensures rows[i] in frame {}
    SumsGrow(rows, 0, |rows|);
    assert rows[..|rows|] == rows && rows[..0] == [];
  }

  ghost predicate IsOnlyDecile(bound: real, d: int) {
    forall c :: InDecile(bound, c) <==> c == d
  }

  /** Every row falls in exactly one decile. */
  lemma OneDecile(bound: real) returns (d: int)
    requires 0.0 < bound <= 1.0
    ensures 0 <= d < 10 && IsOnlyDecile(bound, d)
  {
    var scaled := 10.0 * bound;
    d := if scaled == scaled.Floor as real then scaled.Floor - 1 else scaled.Floor;
    assert d as real < scaled <= (d + 1) as real;
    forall c: int ensures InDecile(bound, c) <==> c == d {
      assert InDecile(bound, c) <==> c as real < scaled <= (c + 1) as real;
    }
  }

  lemma BoundInUnit(rows: seq<Edge>, i: int)
    requires IsFrame(rows) && 0 <= i < |rows|
    ensures Lengths(rows) > 0.0 && 0.0 < Bound(rows, i) <= 1.0
  {
    SumsGrow(rows, 0, i + 1);
    SumsGrow(rows, i + 1, |rows|);
    assert rows[..|rows|] == rows && rows[..0] == [];
    PositiveRatio(Lengths(rows[..i + 1]), Lengths(rows));
  }

  lemma PositiveRatio(a: real, whole: real)
    requires 0.0 < a <= whole
    ensures 0.0 < a / whole <= 1.0
  {
  }

  /** The sum of decile totals over deciles 0 to k - 1. */
  function OverDeciles(rows: seq<Edge>, n: int, k: int, lengths: bool): real
    requires 0 <= n <= |rows| && Lengths(rows) != 0.0 && 0 <= k
  {
    if k == 0 then 0.0 else OverDeciles(rows, n, k - 1, lengths) + ChunkSum(rows, n, k - 1, lengths)
  }

  lemma {:induction false} RowJoinsOneDecile(rows: seq<Edge>, n: int, k: int, d: int, lengths: bool)
    requires 0 < n <= |rows| && Lengths(rows) != 0.0 && 0 <= k
    requires d >= 0 && IsOnlyDecile(Bound(rows, n - 1), d)
    ensures OverDeciles(rows, n, k, lengths) == OverDeciles(rows, n - 1, k, lengths) +
            if d < k then (if lengths then rows[n - 1].length else rows[n - 1].future) else 0.0
    decreases k
  {
    if k > 0 {
      RowJoinsOneDecile(rows, n, k - 1, d, lengths);
    }
  }

  lemma {:induction false} NoRowsNoTotal(rows: seq<Edge>, k: int, lengths: bool)
    requires Lengths(rows) != 0.0 && 0 <= k
    ensures OverDeciles(rows, 0, k, lengths) == 0.0
  {
    if k > 0 {
      NoRowsNoTotal(rows, k - 1, lengths);
    }
  }

  /** The ten deciles partition the rows: their lengths and their future scores add up to the whole. */
  lemma {:induction false} DecilesPartition(rows: seq<Edge>, n: int)
    requires IsFrame(rows) && Lengths(rows) > 0.0 && 0 <= n <= |rows|
    ensures OverDeciles(rows, n, 10, true) == Lengths(rows[..n]) && OverDeciles(rows, n, 10, false) == Future(rows[..n])
    decreases n
  {
    if n == 0 {
      NoRowsNoTotal(rows, 10, true);
      NoRowsNoTotal(rows, 10, false);
    } else {
      DecilesPartition(rows, n - 1);
      BoundInUnit(rows, n - 1);
      var d := OneDecile(Bound(rows, n - 1));
      RowJoinsOneDecile(rows, n, 10, d, true);
      RowJoinsOneDecile(rows, n, 10, d, false);
      assert rows[..n][..n - 1] == rows[..n - 1];
    }
  }

  lemma {:induction false} ChunkSigns(rows: seq<Edge>, n: int, d: int)
    requires IsFrame(rows) && Lengths(rows) > 0.0 && 0 <= n <= |rows|
    ensures ChunkSum(rows, n, d, true) >= 0.0 && ChunkSum(rows, n, d, false) >= 0.0
    ensures ChunkSum(rows, n, d, true) == 0.0 ==> ChunkSum(rows, n, d, false) == 0.0
    decreases n
  {
    if n > 0 {
      ChunkSigns(rows, n - 1, d);
      assert rows[n - 1] in rows;
    }
  }

  /** Density times length, summed over the first k deciles. */
  function Regained(densities: seq<real>, rows: seq<Edge>, k: int): real
    requires Lengths(rows) != 0.0 && 0 <= k <= |densities|
  {
    if k == 0 then 0.0 else Regained(densities, rows, k - 1) + densities[k - 1] * ChunkSum(rows, |rows|, k - 1, true)
  }

  lemma {:induction false} RegainedIsFuture(densities: seq<real>, rows: seq<Edge>, k: int)
    requires Lengths(rows) != 0.0 && 0 <= k <= |densities|
    requires forall d :: 0 <= d < |densities| ==> IsDensity(densities[d], rows, d)
    ensures Regained(densities, rows, k) == OverDeciles(rows, |rows|, k, false)
  {
    if k > 0 {
      RegainedIsFuture(densities, rows, k - 1);
      assert IsDensity(densities[k - 1], rows, k - 1);
    }
  }

  /** No future score is lost or counted twice: density times length over the ten deciles is the total. */
  lemma DensitiesConserveFuture(frame: seq<Edge>, densities: seq<real>)
    requires IsFrame(frame) && Lengths(Reversed(frame)) > 0.0 && |densities| == 10
    requires forall d :: 0 <= d < 10 ==> IsDensity(densities[d], Reversed(frame), d)
    ensures Regained(densities, Reversed(frame), 10) == Future(frame)
  {
    var rows := Reversed(frame);
    assert IsFrame(rows) by {
      forall i | 0 <= i < |rows| ensures rows[i] in frame {}
    }
    RegainedIsFuture(densities, rows, 10);
    DecilesPartition(rows, |rows|);
    assert rows[..|rows|] == rows;
    ReversedFuture(frame);
  }

  lemma {:induction false} FutureHead(frame: seq<Edge>)
    requires frame != []
    ensures Future(frame) == frame[0].future + Future(frame[1..])
  {
    if |frame| == 1 {
      assert frame[..0] == [] && frame[1..] == [];
    } else {
      FutureHead(frame[..|frame| - 1]);
      assert frame[..|frame| - 1][1..] == frame[1..][..|frame| - 2];
    }
  }

  lemma {:induction false} ReversedFuture(frame: seq<Edge>)
    ensures Future(Reversed(frame)) == Future(frame)
  {
    if frame != [] {
      FutureHead(frame);
      ReversedFuture(frame[1..]);
      assert Reversed(frame)[..|frame| - 1] == Reversed(frame[1..]);
    }
  }
}
