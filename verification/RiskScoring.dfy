/** Two-stage risk scoring: crimes collapsed to (edge, bucket, weekday) groups, then expanded to nine contexts.

The fast form touches the pair space once and afterwards works on groups. The reference
form scores every reaching crime on its own. The two agree on every column. */
module RiskScoring {
  import opened Arithmetic
  import opened Options
  import opened RiskContexts
  import opened Neighborhoods

  // ---------- inputs ----------

  /** `kind` is the upper-cased crime type. */
  datatype Crime = Crime(id: int, date: int, isoDay: int, hour: int, kind: string, quantity: int, weapon: bool, motorcycle: bool)

  datatype Snap = Snap(crime: int, graphVersion: int, edge: int, distance: real, valid: bool)

  /** Model parameters; the exponential and power factors are arbitrary functions. */
  datatype Params = Params(
    graphVersion: int, bandwidth: real, dateFrom: int, dateTo: int,
    severity: string -> real, weaponMultiplier: real, motorcycleMultiplier: real,
    snapFactor: real -> real, networkFactor: real -> real, recencyFactor: int -> real,
    twSame: real, twAdjacent: real, twOther: real,
    wwSame: real, wwOther: real, wwAll: real)

  datatype Counts = Counts(incident: int, robbery: int, theft: int, threats: int, armed: int, motorcycle: int)

  function AddCounts(a: Counts, b: Counts): Counts {
    Counts(a.incident + b.incident, a.robbery + b.robbery, a.theft + b.theft,
           a.threats + b.threats, a.armed + b.armed, a.motorcycle + b.motorcycle)
  }

  // ---------- stage 1: join, then group ----------

  datatype Key = Key(edge: int, bucket: TimeBucket, weekday: WeekdayType)

  /** One (crime, reachable edge) pair with its context-independent contribution. */
  datatype Pair = Pair(key: Key, contribution: real, counts: Counts)

  /** A row of crime_edge_base. */
  datatype Group = Group(key: Key, baseScore: real, maxContribution: real, counts: Counts)

  function Contribution(p: Params, c: Crime, snapDistance: real, networkDistance: real): real {
    c.quantity as real * p.severity(c.kind)
    * (if c.weapon then p.weaponMultiplier else 1.0)
    * (if c.motorcycle then p.motorcycleMultiplier else 1.0)
    * p.snapFactor(snapDistance) * p.networkFactor(networkDistance) * p.recencyFactor(c.date)
  }

  function CountsOf(c: Crime): Counts {
    Counts(c.quantity,
           if c.kind == "ROBO" then c.quantity else 0,
           if c.kind == "HURTO" then c.quantity else 0,
           if c.kind == "AMENAZAS" then c.quantity else 0,
           if c.weapon then c.quantity else 0,
           if c.motorcycle then c.quantity else 0)
  }

  predicate InScope(p: Params, crimes: map<int, Crime>, s: Snap) {
    s.graphVersion == p.graphVersion && s.valid && s.crime in crimes && p.dateFrom <= crimes[s.crime].date <= p.dateTo
  }

  predicate Matches(p: Params, s: Snap, n: Row) {
    n.graphVersion == s.graphVersion && n.source == s.edge && n.bandwidth == p.bandwidth
  }

  function PairOf(p: Params, c: Crime, s: Snap, n: Row): Pair {
    Pair(Key(n.target, HourToTimeBucket(c.hour), DayToWeekdayType(c.isoDay)),
         Contribution(p, c, s.distance, n.distance), CountsOf(c))
  }

  function PairsOfSnap(p: Params, c: Crime, s: Snap, neighbors: seq<Row>): seq<Pair> {
    if neighbors == [] then []
    else
      var n := neighbors[|neighbors| - 1];
      PairsOfSnap(p, c, s, neighbors[..|neighbors| - 1]) + if Matches(p, s, n) then [PairOf(p, c, s, n)] else []
  }

  /** The joined rows feeding GROUP BY. */
  function JoinPairs(p: Params, crimes: map<int, Crime>, snaps: seq<Snap>, neighbors: seq<Row>): seq<Pair> {
    if snaps == [] then []
    else
      var s := snaps[|snaps| - 1];
      JoinPairs(p, crimes, snaps[..|snaps| - 1], neighbors) +
      if InScope(p, crimes, s) then PairsOfSnap(p, crimes[s.crime], s, neighbors) else []
  }

  function Matching(pairs: seq<Pair>, k: Key): seq<Pair> {
    if pairs == [] then []
    else
      var before := Matching(pairs[..|pairs| - 1], k);
      if pairs[|pairs| - 1].key == k then before + [pairs[|pairs| - 1]] else before
  }

  function Others(pairs: seq<Pair>, k: Key): seq<Pair> {
    if pairs == [] then []
    else
      var before := Others(pairs[..|pairs| - 1], k);
      if pairs[|pairs| - 1].key == k then before else before + [pairs[|pairs| - 1]]
  }

  /** SUM, MAX and SUM over one group. */
  function Summarise(k: Key, pairs: seq<Pair>): Group
    requires pairs != []
  {
    var last := pairs[|pairs| - 1];
    if |pairs| == 1 then Group(k, last.contribution, last.contribution, last.counts)
    else
      var g := Summarise(k, pairs[..|pairs| - 1]);
      Group(k, g.baseScore + last.contribution, Max(g.maxContribution, last.contribution), AddCounts(g.counts, last.counts))
  }

  /** GROUP BY key, in any order: one group per occurring key, each the summary of its pairs. */
  ghost predicate IsGrouping(pairs: seq<Pair>, groups: seq<Group>) {
    && (forall i, j :: 0 <= i < j < |groups| ==> groups[i].key != groups[j].key)
    && (forall g :: g in groups ==> Matching(pairs, g.key) != [] && g == Summarise(g.key, Matching(pairs, g.key)))
    && (forall pr :: pr in pairs ==> exists g :: g in groups && g.key == pr.key)
  }

  // ---------- stage 2: expand to a context ----------

  datatype BucketClass = Same | Near | Other

  /** The columns of ctx_scores. */
  datatype Totals = Totals(raw: real, maxContribution: real, counts: Counts, same: int, adjacent: int, other: int)

  function ClassOf(k: Key, x: Context): BucketClass {
    if x.bucket == AllDay || k.bucket == x.bucket then Same
    else if Adjacent(k.bucket, x.bucket) then Near
    else Other
  }

  function TemporalWeight(p: Params, k: Key, x: Context): real {
    if x.bucket == AllDay then 1.0
    else if k.bucket == x.bucket then p.twSame
    else if Adjacent(k.bucket, x.bucket) then p.twAdjacent
    else p.twOther
  }

  function WeekdayWeight(p: Params, k: Key, x: Context): real {
    if x.weekday == AnyDay then p.wwAll
    else if k.weekday == x.weekday then p.wwSame
    else p.wwOther
  }

  function Weight(p: Params, k: Key, x: Context): real {
    TemporalWeight(p, k, x) * WeekdayWeight(p, k, x)
  }

  function Weighted(weight: real, class_: BucketClass, sum: real, max: real, counts: Counts): Totals {
    Totals(sum * weight, max * weight, counts,
           if class_ == Same then counts.incident else 0,
           if class_ == Near then counts.incident else 0,
           if class_ == Other then counts.incident else 0)
  }

  function GroupTotals(p: Params, g: Group, x: Context): Totals {
    Weighted(Weight(p, g.key, x), ClassOf(g.key, x), g.baseScore, g.maxContribution, g.counts)
  }

  function PairTotals(p: Params, pr: Pair, x: Context): Totals {
    Weighted(Weight(p, pr.key, x), ClassOf(pr.key, x), pr.contribution, pr.contribution, pr.counts)
  }

  function Combine(a: Totals, b: Totals): Totals {
    Totals(a.raw + b.raw, Max(a.maxContribution, b.maxContribution), AddCounts(a.counts, b.counts),
           a.same + b.same, a.adjacent + b.adjacent, a.other + b.other)
  }

  function Merge(a: Option<Totals>, b: Option<Totals>): Option<Totals> {
    if a.None? then b else if b.None? then a else Some(Combine(a.value, b.value))
  }

  /** The fast form: the ctx_scores row of edge e, aggregated from its groups; None when no group has the edge. */
  function FromGroups(p: Params, groups: seq<Group>, e: int, x: Context): Option<Totals> {
    if groups == [] then None
    else
      var g := groups[|groups| - 1];
      Merge(FromGroups(p, groups[..|groups| - 1], e, x),
            if g.key.edge == e then Some(GroupTotals(p, g, x)) else None)
  }

  function PairShare(p: Params, pr: Pair, e: int, x: Context): Option<Totals> {
    if pr.key.edge == e then Some(PairTotals(p, pr, x)) else None
  }

  /** The same columns with every pair weighted on its own. */
  function FromPairs(p: Params, pairs: seq<Pair>, e: int, x: Context): Option<Totals> {
    if pairs == [] then None
    else
      var pr := pairs[|pairs| - 1];
      Merge(FromPairs(p, pairs[..|pairs| - 1], e, x),
            PairShare(p, pr, e, x))
  }

  // ---------- the collapse loses nothing ----------

  /** A crime's own bucket and weekday type are never the all-day placeholders. */
  predicate IsCrimeKey(k: Key) {
    k.bucket != AllDay && k.weekday != AnyDay
  }

  ghost predicate CrimeKeys(pairs: seq<Pair>) {
    forall pr :: pr in pairs ==> IsCrimeKey(pr.key)
  }

  ghost predicate NonNegativeWeights(p: Params, x: Context) {
    forall k :: IsCrimeKey(k) ==> Weight(p, k, x) >= 0.0
  }

  /** Every column but the maximum. */
  function SumColumns(row: Option<Totals>): Option<Totals> {
    if row.None? then None else Some(row.value.(maxContribution := 0.0))
  }

  lemma MergeLaws(a: Option<Totals>, b: Option<Totals>, c: Option<Totals>)
    ensures Merge(a, b) == Merge(b, a)
    ensures Merge(Merge(a, b), c) == Merge(a, Merge(b, c))
  {
  }

  lemma AddPair(p: Params, pairs: seq<Pair>, pr: Pair, e: int, x: Context)
    ensures FromPairs(p, pairs + [pr], e, x) == Merge(FromPairs(p, pairs, e, x), PairShare(p, pr, e, x))
  {
  }

  /** Splitting the pairs by key splits the total. */
  lemma {:induction false} SplitByKey(p: Params, pairs: seq<Pair>, k: Key, e: int, x: Context)
    ensures FromPairs(p, pairs, e, x) ==
            Merge(FromPairs(p, Matching(pairs, k), e, x), FromPairs(p, Others(pairs, k), e, x))
  {
    if pairs != [] {
      var before, last := pairs[..|pairs| - 1], pairs[|pairs| - 1];
      SplitByKey(p, before, k, e, x);
      AddPair(p, Matching(before, k), last, e, x);
      AddPair(p, Others(before, k), last, e, x);
      var m, o := FromPairs(p, Matching(before, k), e, x), FromPairs(p, Others(before, k), e, x);
      MergeSwap(m, o, PairShare(p, last, e, x));
    }
  }

  lemma MergeSwap(a: Option<Totals>, b: Option<Totals>, c: Option<Totals>)
    ensures Merge(Merge(a, b), c) == Merge(Merge(a, c), b)
    ensures Merge(Merge(a, b), c) == Merge(a, Merge(b, c))
  {
    MergeLaws(a, b, c);
    MergeLaws(a, c, b);
    MergeLaws(b, c, a);
  }

  lemma {:induction false} MatchingKey(pairs: seq<Pair>, k: Key)
    ensures forall pr :: pr in Matching(pairs, k) <==> pr in pairs && pr.key == k
    ensures forall pr :: pr in Others(pairs, k) <==> pr in pairs && pr.key != k
  {
    if pairs != [] {
      MatchingKey(pairs[..|pairs| - 1], k);
      assert pairs == pairs[..|pairs| - 1] + [pairs[|pairs| - 1]];
    }
  }

  /** Removing one key leaves the pairs of every other key alone. */
  lemma {:induction false} OthersKeepsMatching(pairs: seq<Pair>, k: Key, other: Key)
    requires other != k
    ensures Matching(Others(pairs, k), other) == Matching(pairs, other)
  {
    if pairs != [] {
      var before, last := pairs[..|pairs| - 1], pairs[|pairs| - 1];
      OthersKeepsMatching(before, k, other);
      assert (Others(before, k) + [last])[..|Others(before, k)|] == Others(before, k);
    }
  }

  /** Sums are weighted term by term under any weight, the maximum only under one that is not negative. */
  lemma WeightedAdds(w: real, class_: BucketClass, s1: real, m1: real, c1: Counts, s2: real, m2: real, c2: Counts)
    ensures var both := Combine(Weighted(w, class_, s1, m1, c1), Weighted(w, class_, s2, m2, c2));
            var whole := Weighted(w, class_, s1 + s2, Max(m1, m2), AddCounts(c1, c2));
            SumColumns(Some(both)) == SumColumns(Some(whole)) && (w >= 0.0 ==> both == whole)
  {
  }

  /** All pairs of one key carry one weight, so weighting the summary weights every pair. */
  lemma {:induction false} WeightedSummary(p: Params, pairs: seq<Pair>, k: Key, e: int, x: Context)
    requires pairs != [] && forall pr :: pr in pairs ==> pr.key == k
    ensures var row := if k.edge == e then Some(GroupTotals(p, Summarise(k, pairs), x)) else None;
            && SumColumns(FromPairs(p, pairs, e, x)) == SumColumns(row)
            && (Weight(p, k, x) >= 0.0 ==> FromPairs(p, pairs, e, x) == row)
  {
    var before, last := pairs[..|pairs| - 1], pairs[|pairs| - 1];
    assert last in pairs;
    if |pairs| == 1 {
      assert before == [];
    } else {
      WeightedSummary(p, before, k, e, x);
      var g := Summarise(k, before);
      var soFar := if k.edge == e then Some(GroupTotals(p, g, x)) else None;
      MergeLaws(soFar, PairShare(p, last, e, x), None);
      CombineRows(FromPairs(p, before, e, x), PairShare(p, last, e, x), soFar, PairShare(p, last, e, x));
      WeightedAdds(Weight(p, k, x), ClassOf(k, x), g.baseScore, g.maxContribution, g.counts,
                   last.contribution, last.contribution, last.counts);
    }
  }

  /** Taking out the last group's key leaves a grouping of the remaining pairs. */
  lemma GroupingShrinks(pairs: seq<Pair>, groups: seq<Group>)
    requires groups != [] && IsGrouping(pairs, groups)
    ensures IsGrouping(Others(pairs, groups[|groups| - 1].key), groups[..|groups| - 1])
  {
    var before, g := groups[..|groups| - 1], groups[|groups| - 1];
    assert groups == before + [g];
    forall h | h in before
      ensures Matching(Others(pairs, g.key), h.key) != [] && h == Summarise(h.key, Matching(Others(pairs, g.key), h.key))
    {
      assert h.key != g.key && h in groups;
      OthersKeepsMatching(pairs, g.key, h.key);
    }
    OthersStillGrouped(pairs, before, g);
  }

  lemma OthersStillGrouped(pairs: seq<Pair>, before: seq<Group>, g: Group)
    requires forall pr :: pr in pairs ==> exists h :: h in before + [g] && h.key == pr.key
    ensures forall pr :: pr in Others(pairs, g.key) ==> exists h :: h in before && h.key == pr.key
  {
  }

  lemma NonEmptyHasMember<T>(s: seq<T>)
    ensures s != [] ==> exists x :: x in s
  {
    if s != [] { assert s[0] in s; }
  }

  lemma KeysSurvive(pairs: seq<Pair>, groups: seq<Group>)
    requires groups != [] && CrimeKeys(pairs) && IsGrouping(pairs, groups)
    ensures IsCrimeKey(groups[|groups| - 1].key) && CrimeKeys(Others(pairs, groups[|groups| - 1].key))
    ensures forall pr :: pr in Matching(pairs, groups[|groups| - 1].key) ==> pr.key == groups[|groups| - 1].key
  {
    var g := groups[|groups| - 1];
    assert g in groups;
    MatchingKey(pairs, g.key);
    var pr :| pr in Matching(pairs, g.key);
  }

  /** The fast form equals the per-pair form for every edge and context: on every summed column whatever the
  weights are, and on the maximum as well when none is negative. */
  lemma {:induction false} CollapseLosesNothing(p: Params, pairs: seq<Pair>, groups: seq<Group>, e: int, x: Context)
    requires CrimeKeys(pairs) && IsGrouping(pairs, groups)
    ensures SumColumns(FromGroups(p, groups, e, x)) == SumColumns(FromPairs(p, pairs, e, x))
    ensures NonNegativeWeights(p, x) ==> FromGroups(p, groups, e, x) == FromPairs(p, pairs, e, x)
    decreases |groups|
  {
    if groups == [] {
      NonEmptyHasMember(pairs);
    } else {
      var before, g := groups[..|groups| - 1], groups[|groups| - 1];
      assert g in groups;
      GroupingShrinks(pairs, groups);
      KeysSurvive(pairs, groups);
      var matching, others := Matching(pairs, g.key), Others(pairs, g.key);
      CollapseLosesNothing(p, others, before, e, x);
      WeightedSummary(p, matching, g.key, e, x);
      SplitByKey(p, pairs, g.key, e, x);
      var last := if g.key.edge == e then Some(GroupTotals(p, g, x)) else None;
      CombineRows(FromGroups(p, before, e, x), last, FromPairs(p, others, e, x), FromPairs(p, matching, e, x));
    }
  }

  lemma CombineRows(a: Option<Totals>, b: Option<Totals>, c: Option<Totals>, d: Option<Totals>)
    requires SumColumns(a) == SumColumns(c) && SumColumns(b) == SumColumns(d)
    ensures SumColumns(Merge(a, b)) == SumColumns(Merge(d, c))
    ensures a == c && b == d ==> Merge(a, b) == Merge(d, c)
  {
  }

  ghost predicate CollapseAgrees(p: Params, x: Context) {
    forall pairs, groups, e :: AgreeOn(p, x, pairs, groups, e)
  }

  ghost predicate AgreeOn(p: Params, x: Context, pairs: seq<Pair>, groups: seq<Group>, e: int) {
    CrimeKeys(pairs) && IsGrouping(pairs, groups) ==> FromGroups(p, groups, e, x) == FromPairs(p, pairs, e, x)
  }

  /** Whole rows, maximum included, agree on all inputs exactly when no combined weight is negative: under a
  negative weight the largest group contribution becomes the smallest weighted one. */
  lemma CollapseAgreesExactly(p: Params, x: Context)
    ensures CollapseAgrees(p, x) <==> NonNegativeWeights(p, x)
  {
    if NonNegativeWeights(p, x) {
      forall pairs, groups, e ensures AgreeOn(p, x, pairs, groups, e) {
        if CrimeKeys(pairs) && IsGrouping(pairs, groups) {
          CollapseLosesNothing(p, pairs, groups, e, x);
        }
      }
    } else {
      var k :| IsCrimeKey(k) && Weight(p, k, x) < 0.0;
      NegativeWeightDiffers(p, k, x);
    }
  }

  lemma NegativeWeightDiffers(p: Params, k: Key, x: Context)
    requires IsCrimeKey(k) && Weight(p, k, x) < 0.0
    ensures !CollapseAgrees(p, x)
  {
    var none := Counts(0, 0, 0, 0, 0, 0);
    var low, high, g := Pair(k, 0.0, none), Pair(k, 1.0, none), Group(k, 1.0, 1.0, none);
    TwoPairsDisagree(p, low, high, g, [] + [low] + [high], [g], x);
  }

  lemma TwoPairsDisagree(p: Params, low: Pair, high: Pair, g: Group, pairs: seq<Pair>, groups: seq<Group>, x: Context)
    requires low.key == high.key == g.key && IsCrimeKey(g.key) && Weight(p, g.key, x) < 0.0
    requires low.contribution == 0.0 && high.contribution == 1.0
    requires g == Group(g.key, 1.0, 1.0, AddCounts(low.counts, high.counts))
    requires pairs == [] + [low] + [high] && groups == [g]
    ensures !CollapseAgrees(p, x)
  {
    TwoPairGroup(low, high, g);
    TwoPairMismatch(p, low, high, g, x);
    Disagreement(p, x, pairs, groups, g.key.edge);
  }

  lemma Disagreement(p: Params, x: Context, pairs: seq<Pair>, groups: seq<Group>, e: int)
    requires CrimeKeys(pairs) && IsGrouping(pairs, groups)
    requires FromGroups(p, groups, e, x) != FromPairs(p, pairs, e, x)
    ensures !CollapseAgrees(p, x)
  {
    assert !AgreeOn(p, x, pairs, groups, e);
  }

  lemma TwoPairGroup(low: Pair, high: Pair, g: Group)
    requires low.key == high.key == g.key && IsCrimeKey(g.key)
    requires g == Group(g.key, low.contribution + high.contribution, Max(low.contribution, high.contribution),
                        AddCounts(low.counts, high.counts))
    ensures CrimeKeys([] + [low] + [high]) && IsGrouping([] + [low] + [high], [g])
  {
    TwoPairSummary(low, high);
    OneKeyGrouping([] + [low] + [high], g.key);
  }

  lemma TwoPairMismatch(p: Params, low: Pair, high: Pair, g: Group, x: Context)
    requires low.key == high.key == g.key && Weight(p, g.key, x) < 0.0
    requires low.contribution == 0.0 && high.contribution == 1.0 && g.maxContribution == 1.0
    ensures FromGroups(p, [g], g.key.edge, x) != FromPairs(p, [] + [low] + [high], g.key.edge, x)
  {
  }

  lemma TwoPairSummary(low: Pair, high: Pair)
    requires low.key == high.key
    ensures Summarise(low.key, [] + [low] + [high]) ==
            Group(low.key, low.contribution + high.contribution, Max(low.contribution, high.contribution),
                  AddCounts(low.counts, high.counts))
  {
  }

  lemma {:induction false} MatchingAll(pairs: seq<Pair>, k: Key)
    requires forall pr :: pr in pairs ==> pr.key == k
    ensures Matching(pairs, k) == pairs
  {
    if pairs != [] {
      assert pairs[|pairs| - 1] in pairs;
      MatchingAll(pairs[..|pairs| - 1], k);
    }
  }

  /** Pairs of a single key form a single group. */
  lemma OneKeyGrouping(pairs: seq<Pair>, k: Key)
    requires pairs != [] && forall pr :: pr in pairs ==> pr.key == k
    ensures IsGrouping(pairs, [Summarise(k, pairs)])
  {
    MatchingAll(pairs, k);
    var g := Summarise(k, pairs);
    assert g.key == k && g in [g];
    forall h | h in [g] ensures h == g {}
  }

  // ---------- a grouping always exists ----------

  lemma {:induction false} GroupingExists(pairs: seq<Pair>) returns (groups: seq<Group>)
    ensures IsGrouping(pairs, groups)
    decreases |pairs|
  {
    if pairs == [] {
      groups := [];
    } else {
      var k := pairs[|pairs| - 1].key;
      OthersShorter(pairs, k);
      var before := GroupingExists(Others(pairs, k));
      MatchingKey(pairs, k);
      assert pairs[|pairs| - 1] in pairs;
      assert pairs[|pairs| - 1] in Matching(pairs, k);
      var g := Summarise(k, Matching(pairs, k));
      groups := before + [g];
      assert g.key == k;
      forall h | h in before ensures h.key != k && Matching(pairs, h.key) == Matching(Others(pairs, k), h.key) {
        assert Matching(Others(pairs, k), h.key)[0] in Matching(Others(pairs, k), h.key);
        MatchingKey(Others(pairs, k), h.key);
        OthersKeepsMatching(pairs, k, h.key);
      }
      forall pr | pr in pairs ensures exists h :: h in groups && h.key == pr.key {
        if pr.key == k {
          assert g in groups;
        } else {
          var h :| h in before && h.key == pr.key;
          assert h in groups;
        }
      }
    }
  }

  lemma {:induction false} OthersShorter(pairs: seq<Pair>, k: Key)
    ensures |Others(pairs, k)| <= |pairs|
    ensures pairs != [] && pairs[|pairs| - 1].key == k ==> |Others(pairs, k)| < |pairs|
  {
    if pairs != [] {
      OthersShorter(pairs[..|pairs| - 1], k);
    }
  }

  // ---------- the per-crime reference ----------

  /** n is the stored neighbour row through which the snap reaches edge e. */
  ghost predicate ReachesBy(p: Params, s: Snap, neighbors: seq<Row>, e: int, n: Row) {
    && n in neighbors && n.graphVersion == s.graphVersion && n.bandwidth == p.bandwidth
    && n.source == s.edge && n.target == e
  }

  ghost predicate Reaches(p: Params, s: Snap, neighbors: seq<Row>, e: int) {
    exists n :: ReachesBy(p, s, neighbors, e, n)
  }

  ghost function ReachingRow(p: Params, s: Snap, neighbors: seq<Row>, e: int): Row
    requires Reaches(p, s, neighbors, e)
  {
    var n :| ReachesBy(p, s, neighbors, e, n);
    n
  }

  /** A snapped crime counts for edge e when its snap is a valid one of the scored graph version, its date lies in
  the window, and its edge reaches e. */
  ghost predicate Hits(p: Params, crimes: map<int, Crime>, s: Snap, neighbors: seq<Row>, e: int) {
    && s.valid && s.graphVersion == p.graphVersion
    && s.crime in crimes && p.dateFrom <= crimes[s.crime].date && crimes[s.crime].date <= p.dateTo
    && Reaches(p, s, neighbors, e)
  }

  ghost function SharePair(p: Params, crimes: map<int, Crime>, s: Snap, neighbors: seq<Row>, e: int): Pair
    requires Hits(p, crimes, s, neighbors, e)
  {
    PairOf(p, crimes[s.crime], s, ReachingRow(p, s, neighbors, e))
  }

  /** The time factor of a crime's hour for a bucket: the same bucket, one that it meets around the clock, or another. */
  ghost function TimeFactor(p: Params, hour: int, b: TimeBucket): real {
    if b == AllDay then 1.0
    else if HourToTimeBucket(hour) == b then p.twSame
    else if Meet(HourToTimeBucket(hour), b) then p.twAdjacent
    else p.twOther
  }

  ghost predicate Meet(a: TimeBucket, b: TimeBucket) {
    exists h :: MeetAt(a, b, h) || MeetAt(b, a, h)
  }

  ghost function DayFactor(p: Params, isoDay: int, w: WeekdayType): real {
    if w == AnyDay then p.wwAll
    else if DayToWeekdayType(isoDay) == w then p.wwSame
    else p.wwOther
  }

  /** What a crime contributes through its snap and a neighbour row, before context. */
  ghost function CrimeContribution(p: Params, c: Crime, s: Snap, n: Row): real {
    var armed := if c.weapon then p.weaponMultiplier else 1.0;
    var riding := if c.motorcycle then p.motorcycleMultiplier else 1.0;
    c.quantity as real * p.severity(c.kind) * armed * riding
    * p.snapFactor(s.distance) * p.networkFactor(n.distance) * p.recencyFactor(c.date)
  }

  /** Contribution times time factor times day factor of one crime. */
  ghost function Score(p: Params, crimes: map<int, Crime>, s: Snap, neighbors: seq<Row>, e: int, x: Context): real {
    if Hits(p, crimes, s, neighbors, e) then
      var c := crimes[s.crime];
      CrimeContribution(p, c, s, ReachingRow(p, s, neighbors, e)) *
      (TimeFactor(p, c.hour, x.bucket) * DayFactor(p, c.isoDay, x.weekday))
    else 0.0
  }

  ghost function ScoreSum(p: Params, crimes: map<int, Crime>, snaps: seq<Snap>, neighbors: seq<Row>, e: int, x: Context): real {
    if snaps == [] then 0.0
    else
      ScoreSum(p, crimes, snaps[..|snaps| - 1], neighbors, e, x)
      + Score(p, crimes, snaps[|snaps| - 1], neighbors, e, x)
  }

  datatype Column = Incidents | Robberies | Thefts | Threats | Armed | Riding | SameBucket | AdjacentBucket | OtherBucket

  /** A count column of a ctx_scores row; zero when the edge has no row. */
  function ReadColumn(row: Option<Totals>, column: Column): int {
    if row.None? then 0
    else match column
      case Incidents => row.value.counts.incident
      case Robberies => row.value.counts.robbery
      case Thefts => row.value.counts.theft
      case Threats => row.value.counts.threats
      case Armed => row.value.counts.armed
      case Riding => row.value.counts.motorcycle
      case SameBucket => row.value.same
      case AdjacentBucket => row.value.adjacent
      case OtherBucket => row.value.other
  }

  /** The crimes a count column counts, in a context of bucket b. */
  ghost predicate CountsIn(c: Crime, b: TimeBucket, column: Column) {
    var own := b == AllDay || HourToTimeBucket(c.hour) == b;
    match column
    case Incidents => true
    case Robberies => c.kind == "ROBO"
    case Thefts => c.kind == "HURTO"
    case Threats => c.kind == "AMENAZAS"
    case Armed => c.weapon
    case Riding => c.motorcycle
    case SameBucket => own
    case AdjacentBucket => !own && Meet(HourToTimeBucket(c.hour), b)
    case OtherBucket => !own && !Meet(HourToTimeBucket(c.hour), b)
  }

  ghost function Counted(c: Crime, b: TimeBucket, column: Column): int {
    if CountsIn(c, b, column) then c.quantity else 0
  }

  ghost function CountSum(p: Params, crimes: map<int, Crime>, snaps: seq<Snap>, neighbors: seq<Row>, e: int, b: TimeBucket,
                          column: Column): int {
    if snaps == [] then 0
    else
      var s := snaps[|snaps| - 1];
      CountSum(p, crimes, snaps[..|snaps| - 1], neighbors, e, b, column)
      + if Hits(p, crimes, s, neighbors, e) then Counted(crimes[s.crime], b, column) else 0
  }

  /** The query's weights are the factors of the crime's hour and day. */
  lemma WeightWrittenOut(p: Params, c: Crime, k: Key, x: Context)
    requires k.bucket == HourToTimeBucket(c.hour) && k.weekday == DayToWeekdayType(c.isoDay)
    ensures Weight(p, k, x) == TimeFactor(p, c.hour, x.bucket) * DayFactor(p, c.isoDay, x.weekday)
  {
    if x.bucket != AllDay && k.bucket != x.bucket { AdjacentAroundTheClock(k.bucket, x.bucket); }
  }

  /** The query's bucket class of a crime, in the terms of the clock. */
  lemma ClassWrittenOut(c: Crime, k: Key, x: Context)
    requires k.bucket == HourToTimeBucket(c.hour)
    ensures ClassOf(k, x) == Same <==> CountsIn(c, x.bucket, SameBucket)
    ensures ClassOf(k, x) == Near <==> CountsIn(c, x.bucket, AdjacentBucket)
    ensures ClassOf(k, x) == Other <==> CountsIn(c, x.bucket, OtherBucket)
  {
    if x.bucket != AllDay && k.bucket != x.bucket { AdjacentAroundTheClock(k.bucket, x.bucket); }
  }

  /** The columns of one joined row are those of its crime. */
  lemma PairWrittenOut(p: Params, crimes: map<int, Crime>, s: Snap, neighbors: seq<Row>, e: int, x: Context)
    requires Hits(p, crimes, s, neighbors, e)
    ensures var t := PairTotals(p, SharePair(p, crimes, s, neighbors, e), x);
            && t.raw == t.maxContribution == Score(p, crimes, s, neighbors, e, x)
            && forall column :: ReadColumn(Some(t), column) == Counted(crimes[s.crime], x.bucket, column)
  {
    var c, pr := crimes[s.crime], SharePair(p, crimes, s, neighbors, e);
    WeightWrittenOut(p, c, pr.key, x);
    ClassWrittenOut(c, pr.key, x);
    assert pr.contribution == CrimeContribution(p, c, s, ReachingRow(p, s, neighbors, e));
    forall column ensures ReadColumn(Some(PairTotals(p, pr, x)), column) == Counted(c, x.bucket, column) {}
  }

  lemma {:induction false} ConcatPairs(p: Params, a: seq<Pair>, b: seq<Pair>, e: int, x: Context)
    ensures FromPairs(p, a + b, e, x) == Merge(FromPairs(p, a, e, x), FromPairs(p, b, e, x))
    decreases |b|
  {
    if b == [] {
      assert a + b == a;
    } else {
      var before, last := b[..|b| - 1], b[|b| - 1];
      ConcatPairs(p, a, before, e, x);
      AddPair(p, a + before, last, e, x);
      assert a + before + [last] == a + b;
      MergeLaws(FromPairs(p, a, e, x), FromPairs(p, before, e, x), PairShare(p, last, e, x));
    }
  }

  /** Of the joined rows of one crime, at most one is for edge e. */
  lemma {:induction false} SnapShare(p: Params, c: Crime, s: Snap, neighbors: seq<Row>, e: int, x: Context)
    requires UniqueNeighbors(neighbors)
    ensures FromPairs(p, PairsOfSnap(p, c, s, neighbors), e, x) ==
            if Reaches(p, s, neighbors, e) then Some(PairTotals(p, PairOf(p, c, s, ReachingRow(p, s, neighbors, e)), x)) else None
    decreases |neighbors|
  {
    if neighbors != [] {
      var before, n := neighbors[..|neighbors| - 1], neighbors[|neighbors| - 1];
      SnapShare(p, c, s, before, e, x);
      assert neighbors == before + [n];
      var pairs := PairsOfSnap(p, c, s, before);
      assert pairs + [] == pairs;
      AddPair(p, pairs, PairOf(p, c, s, n), e, x);
      OneReachingRow(p, s, neighbors, e);
      if ReachesBy(p, s, neighbors, e, n) {
        LastRowIsNew(before, n);
        assert !Reaches(p, s, before, e);
        assert ReachingRow(p, s, neighbors, e) == n;
      } else if Reaches(p, s, before, e) {
        assert ReachesBy(p, s, neighbors, e, ReachingRow(p, s, before, e));
      } else {
        assert forall m :: ReachesBy(p, s, neighbors, e, m) ==> ReachesBy(p, s, before, e, m);
      }
    }
  }

  lemma OneReachingRow(p: Params, s: Snap, neighbors: seq<Row>, e: int)
    requires UniqueNeighbors(neighbors)
    ensures forall m, n :: ReachesBy(p, s, neighbors, e, m) && ReachesBy(p, s, neighbors, e, n) ==> m == n
  {
  }

  /** What a ctx_scores row says about the crimes behind it. */
  ghost predicate Explains(p: Params, crimes: map<int, Crime>, snaps: seq<Snap>, neighbors: seq<Row>, e: int, x: Context,
                           row: Option<Totals>) {
    && (row.Some? <==> exists s :: s in snaps && Hits(p, crimes, s, neighbors, e))
    && ExplainsSums(p, crimes, snaps, neighbors, e, x, row)
    && (row.Some? ==> IsLargestScore(p, crimes, snaps, neighbors, e, x, row.value.maxContribution))
  }

  /** The summed columns: the score, and every count column. */
  ghost predicate ExplainsSums(p: Params, crimes: map<int, Crime>, snaps: seq<Snap>, neighbors: seq<Row>, e: int, x: Context,
                               row: Option<Totals>) {
    && (if row.Some? then row.value.raw else 0.0) == ScoreSum(p, crimes, snaps, neighbors, e, x)
    && forall column :: ReadColumn(row, column) == CountSum(p, crimes, snaps, neighbors, e, x.bucket, column)
  }

  ghost predicate IsLargestScore(p: Params, crimes: map<int, Crime>, snaps: seq<Snap>, neighbors: seq<Row>, e: int, x: Context,
                                 largest: real) {
    && (exists s :: s in snaps && Hits(p, crimes, s, neighbors, e) && largest == Score(p, crimes, s, neighbors, e, x))
    && (forall s :: s in snaps && Hits(p, crimes, s, neighbors, e) ==> Score(p, crimes, s, neighbors, e, x) <= largest)
  }

  lemma {:induction false} PairsExplain(p: Params, crimes: map<int, Crime>, snaps: seq<Snap>, neighbors: seq<Row>, e: int, x: Context)
    requires UniqueNeighbors(neighbors)
    ensures Explains(p, crimes, snaps, neighbors, e, x, FromPairs(p, JoinPairs(p, crimes, snaps, neighbors), e, x))
    decreases |snaps|
  {
    if snaps != [] {
      var before, s := snaps[..|snaps| - 1], snaps[|snaps| - 1];
      PairsExplain(p, crimes, before, neighbors, e, x);
      assert snaps == before + [s];
      JoinNext(p, crimes, before, s, neighbors, e, x);
      var row := FromPairs(p, JoinPairs(p, crimes, before, neighbors), e, x);
      if Hits(p, crimes, s, neighbors, e) {
        MergeExplains(p, crimes, before, s, neighbors, e, x, row);
      } else {
        SkipExplains(p, crimes, before, s, neighbors, e, x, row);
      }
    }
  }

  /** A further snapped crime adds its own share to the edge when it reaches it, and nothing otherwise. */
  lemma JoinNext(p: Params, crimes: map<int, Crime>, before: seq<Snap>, s: Snap, neighbors: seq<Row>, e: int, x: Context)
    requires UniqueNeighbors(neighbors)
    ensures FromPairs(p, JoinPairs(p, crimes, before + [s], neighbors), e, x) ==
            Merge(FromPairs(p, JoinPairs(p, crimes, before, neighbors), e, x),
                  if Hits(p, crimes, s, neighbors, e) then Some(PairTotals(p, SharePair(p, crimes, s, neighbors, e), x)) else None)
  {
    assert (before + [s])[..|before|] == before;
    var pairs := JoinPairs(p, crimes, before, neighbors);
    assert pairs + [] == pairs;
    if InScope(p, crimes, s) {
      ConcatPairs(p, pairs, PairsOfSnap(p, crimes[s.crime], s, neighbors), e, x);
      SnapShare(p, crimes[s.crime], s, neighbors, e, x);
    }
  }

  lemma SkipExplains(p: Params, crimes: map<int, Crime>, before: seq<Snap>, s: Snap, neighbors: seq<Row>, e: int, x: Context,
                     row: Option<Totals>)
    requires Explains(p, crimes, before, neighbors, e, x, row) && !Hits(p, crimes, s, neighbors, e)
    ensures Explains(p, crimes, before + [s], neighbors, e, x, row)
  {
    assert (before + [s])[..|before|] == before;
  }

  lemma MergeExplains(p: Params, crimes: map<int, Crime>, before: seq<Snap>, s: Snap, neighbors: seq<Row>, e: int, x: Context,
                      row: Option<Totals>)
    requires Explains(p, crimes, before, neighbors, e, x, row) && Hits(p, crimes, s, neighbors, e)
    ensures Explains(p, crimes, before + [s], neighbors, e, x,
                     Merge(row, Some(PairTotals(p, SharePair(p, crimes, s, neighbors, e), x))))
  {
    var t := PairTotals(p, SharePair(p, crimes, s, neighbors, e), x);
    assert s in before + [s];
    PairWrittenOut(p, crimes, s, neighbors, e, x);
    MergeSums(p, crimes, before, s, neighbors, e, x, row, t);
    MergeLargest(p, crimes, before, s, neighbors, e, x, row, t);
  }

  lemma MergeSums(p: Params, crimes: map<int, Crime>, before: seq<Snap>, s: Snap, neighbors: seq<Row>, e: int, x: Context,
                  row: Option<Totals>, t: Totals)
    requires ExplainsSums(p, crimes, before, neighbors, e, x, row) && Hits(p, crimes, s, neighbors, e)
    requires t.raw == Score(p, crimes, s, neighbors, e, x)
    requires forall column :: ReadColumn(Some(t), column) == Counted(crimes[s.crime], x.bucket, column)
    ensures ExplainsSums(p, crimes, before + [s], neighbors, e, x, Merge(row, Some(t)))
  {
    assert (before + [s])[..|before|] == before;
    forall column
      ensures ReadColumn(Merge(row, Some(t)), column) == CountSum(p, crimes, before + [s], neighbors, e, x.bucket, column)
    {
      ColumnsAdd(row, t, column);
      assert ReadColumn(row, column) == CountSum(p, crimes, before, neighbors, e, x.bucket, column);
    }
  }

  lemma ColumnsAdd(row: Option<Totals>, t: Totals, column: Column)
    ensures ReadColumn(Merge(row, Some(t)), column) == ReadColumn(row, column) + ReadColumn(Some(t), column)
  {
  }

  lemma MergeLargest(p: Params, crimes: map<int, Crime>, before: seq<Snap>, s: Snap, neighbors: seq<Row>, e: int, x: Context,
                     row: Option<Totals>, t: Totals)
    requires row.Some? <==> exists u :: u in before && Hits(p, crimes, u, neighbors, e)
    requires row.Some? ==> IsLargestScore(p, crimes, before, neighbors, e, x, row.value.maxContribution)
    requires Hits(p, crimes, s, neighbors, e) && t.maxContribution == Score(p, crimes, s, neighbors, e, x)
    ensures IsLargestScore(p, crimes, before + [s], neighbors, e, x, Merge(row, Some(t)).value.maxContribution)
  {
    assert s in before + [s];
    if row.Some? {
      var u :| u in before && Hits(p, crimes, u, neighbors, e) &&
               row.value.maxContribution == Score(p, crimes, u, neighbors, e, x);
      assert u in before + [s];
    }
  }

  /** Stage 1 and stage 2 together: whatever order GROUP BY picks, an edge has a row exactly when a crime reaches
  it, whose sums and counts are those over the reaching crimes; without negative weights so is its maximum. */
  lemma ScoresEveryCrimeOnce(p: Params, crimes: map<int, Crime>, snaps: seq<Snap>, neighbors: seq<Row>,
                             groups: seq<Group>, e: int, x: Context)
    requires UniqueNeighbors(neighbors) && IsGrouping(JoinPairs(p, crimes, snaps, neighbors), groups)
    ensures var row := FromGroups(p, groups, e, x);
            && (row.Some? <==> exists s :: s in snaps && Hits(p, crimes, s, neighbors, e))
            && ExplainsSums(p, crimes, snaps, neighbors, e, x, row)
            && (NonNegativeWeights(p, x) && row.Some? ==>
                  IsLargestScore(p, crimes, snaps, neighbors, e, x, row.value.maxContribution))
  {
    JoinHasCrimeKeys(p, crimes, snaps, neighbors);
    var pairs := JoinPairs(p, crimes, snaps, neighbors);
    CollapseLosesNothing(p, pairs, groups, e, x);
    PairsExplain(p, crimes, snaps, neighbors, e, x);
    SumsDecide(p, crimes, snaps, neighbors, e, x, FromPairs(p, pairs, e, x), FromGroups(p, groups, e, x));
  }

  lemma SumsDecide(p: Params, crimes: map<int, Crime>, snaps: seq<Snap>, neighbors: seq<Row>, e: int, x: Context,
                   row: Option<Totals>, other: Option<Totals>)
    requires ExplainsSums(p, crimes, snaps, neighbors, e, x, row) && SumColumns(row) == SumColumns(other)
    ensures ExplainsSums(p, crimes, snaps, neighbors, e, x, other)
  {
    forall column ensures ReadColumn(other, column) == ReadColumn(row, column) {}
  }

  lemma {:induction false} JoinHasCrimeKeys(p: Params, crimes: map<int, Crime>, snaps: seq<Snap>, neighbors: seq<Row>)
    ensures CrimeKeys(JoinPairs(p, crimes, snaps, neighbors))
  {
    if snaps != [] {
      var s := snaps[|snaps| - 1];
      JoinHasCrimeKeys(p, crimes, snaps[..|snaps| - 1], neighbors);
      if InScope(p, crimes, s) {
        SnapHasCrimeKeys(p, crimes[s.crime], s, neighbors);
      }
    }
  }

  lemma {:induction false} SnapHasCrimeKeys(p: Params, c: Crime, s: Snap, neighbors: seq<Row>)
    ensures CrimeKeys(PairsOfSnap(p, c, s, neighbors))
  {
    if neighbors != [] {
      SnapHasCrimeKeys(p, c, s, neighbors[..|neighbors| - 1]);
    }
  }

  /** Every count column but the bucket split is the same in all contexts. */
  lemma {:induction false} CountsIgnoreContext(p: Params, groups: seq<Group>, e: int, x: Context, y: Context)
    ensures FromGroups(p, groups, e, x).Some? == FromGroups(p, groups, e, y).Some?
    ensures FromGroups(p, groups, e, x).Some? ==>
              FromGroups(p, groups, e, x).value.counts == FromGroups(p, groups, e, y).value.counts
  {
    if groups != [] {
      CountsIgnoreContext(p, groups[..|groups| - 1], e, x, y);
    }
  }

  /** The incidents an edge's row counts in one bucket class; none when no group has the edge. */
  function ClassCount(p: Params, groups: seq<Group>, e: int, x: Context, c: BucketClass): int {
    var row := FromGroups(p, groups, e, x);
    if row.None? then 0
    else match c
      case Same => row.value.same
      case Near => row.value.adjacent
      case Other => row.value.other
  }

  function IncidentCount(p: Params, groups: seq<Group>, e: int, x: Context): int {
    var row := FromGroups(p, groups, e, x);
    if row.None? then 0 else row.value.counts.incident
  }

  /** The class counts of one weekday type, summed over the four buckets of the day. */
  function OverDay(p: Params, groups: seq<Group>, e: int, w: WeekdayType, c: BucketClass): int {
    ClassCount(p, groups, e, Context(Morning, w), c) + ClassCount(p, groups, e, Context(Afternoon, w), c) +
    ClassCount(p, groups, e, Context(Evening, w), c) + ClassCount(p, groups, e, Context(Night, w), c)
  }

  /** In how many of the four buckets an incident falls in class c. */
  function Times(c: BucketClass): int {
    if c == Near then 2 else 1
  }

  /** Over the four buckets of a day every incident is counted once as same, twice as adjacent and once as
  other; in the all-day context it is always same. */
  lemma {:induction false} IncidentsSpreadOverDay(p: Params, groups: seq<Group>, e: int, w: WeekdayType, c: BucketClass)
    requires forall g :: g in groups ==> IsCrimeKey(g.key)
    ensures OverDay(p, groups, e, w, c) == Times(c) * IncidentCount(p, groups, e, Context(AllDay, AnyDay))
    ensures ClassCount(p, groups, e, Context(AllDay, AnyDay), c) ==
            if c == Same then IncidentCount(p, groups, e, Context(AllDay, AnyDay)) else 0
  {
    if groups != [] {
      var before, g := groups[..|groups| - 1], groups[|groups| - 1];
      IncidentsSpreadOverDay(p, before, e, w, c);
      assert g in groups && groups == before + [g];
      OverDayAppend(p, before, g, e, w, c);
      ClassCountAppend(p, before, g, e, Context(AllDay, AnyDay), c);
      ClassesOfDay(g.key, w, c);
    }
  }

  lemma OverDayAppend(p: Params, before: seq<Group>, g: Group, e: int, w: WeekdayType, c: BucketClass)
    requires IsCrimeKey(g.key)
    ensures OverDay(p, before + [g], e, w, c) ==
            OverDay(p, before, e, w, c) + if g.key.edge == e then Times(c) * g.counts.incident else 0
  {
    ClassCountAppend(p, before, g, e, Context(Morning, w), c);
    ClassCountAppend(p, before, g, e, Context(Afternoon, w), c);
    ClassCountAppend(p, before, g, e, Context(Evening, w), c);
    ClassCountAppend(p, before, g, e, Context(Night, w), c);
    ClassesOfDay(g.key, w, c);
  }

  function InClass(k: Key, x: Context, c: BucketClass): int {
    if ClassOf(k, x) == c then 1 else 0
  }

  /** One more group adds its incidents to the column of its bucket class. */
  lemma ClassCountAppend(p: Params, before: seq<Group>, g: Group, e: int, x: Context, c: BucketClass)
    ensures IncidentCount(p, before + [g], e, x) == IncidentCount(p, before, e, x) + if g.key.edge == e then g.counts.incident else 0
    ensures ClassCount(p, before + [g], e, x, c) ==
            ClassCount(p, before, e, x, c) + if g.key.edge == e && InClass(g.key, x, c) == 1 then g.counts.incident else 0
  {
    assert (before + [g])[..|before|] == before;
  }

  lemma ClassesOfDay(k: Key, w: WeekdayType, c: BucketClass)
    requires IsCrimeKey(k)
    ensures InClass(k, Context(Morning, w), c) + InClass(k, Context(Afternoon, w), c) +
            InClass(k, Context(Evening, w), c) + InClass(k, Context(Night, w), c) == Times(c)
    ensures InClass(k, Context(AllDay, AnyDay), c) == if c == Same then 1 else 0
  {
    PairsListed(k.bucket, Morning);
    PairsListed(k.bucket, Afternoon);
    PairsListed(k.bucket, Evening);
    PairsListed(k.bucket, Night);
  }
}
