/** Time buckets, weekday types and the nine scored contexts, shared by the pipeline and the API. */
module RiskContexts {

  datatype TimeBucket = Morning | Afternoon | Evening | Night | AllDay

  datatype WeekdayType = Weekday | Weekend | AnyDay

  datatype Context = Context(bucket: TimeBucket, weekday: WeekdayType)

  function HourToTimeBucket(hour: int): (b: TimeBucket)
    ensures b != AllDay
  {
    if 6 <= hour <= 11 then Morning
    else if 12 <= hour <= 17 then Afternoon
    else if 18 <= hour <= 21 then Evening
    else Night
  }

  /** ISO day of the week: 1 is Monday, 6 and 7 are the weekend. */
  function DayToWeekdayType(isoDay: int): (w: WeekdayType)
    ensures w != AnyDay
  {
    if isoDay >= 6 then Weekend else Weekday
  }

  /** The same rule on Python's day numbers, where Monday is 0. */
  function PythonWeekdayType(weekday: int): WeekdayType {
    if weekday >= 5 then Weekend else Weekday
  }

  /** The same rule on Go's day numbers, where Sunday is 0. */
  function GoWeekdayType(weekday: int): WeekdayType {
    if weekday == 6 || weekday == 0 then Weekend else Weekday
  }

  /** Pipeline, scoring query and service agree on every day of the week. */
  lemma WeekdayTwins(isoDay: int)
    requires 1 <= isoDay <= 7
    ensures DayToWeekdayType(isoDay) == PythonWeekdayType(isoDay - 1) == GoWeekdayType(isoDay % 7)
  {
  }

  function StartOf(b: TimeBucket): int {
    match b
    case Morning => 6
    case Afternoon => 12
    case Evening => 18
    case Night => 22
    case AllDay => 0
  }

  function NextBucket(b: TimeBucket): TimeBucket {
    match b
    case Morning => Afternoon
    case Afternoon => Evening
    case Evening => Night
    case Night => Morning
    case AllDay => AllDay
  }

  function HoursFrom(start: int, hour: int): int {
    (hour - start) % 24
  }

  /** Each bucket is one run of the clock: it holds the hours from its start up to the start of the next one. */
  lemma BucketsFollowTheClock(hour: int, b: TimeBucket)
    requires 0 <= hour < 24 && b != AllDay
    ensures HourToTimeBucket(hour) == b <==> HoursFrom(StartOf(b), hour) < HoursFrom(StartOf(b), StartOf(NextBucket(b)))
  {
  }

  const BUCKETS: seq<TimeBucket> := [Morning, Afternoon, Evening, Night]

  const CONTEXTS: seq<Context> := [
    Context(Morning, Weekday), Context(Afternoon, Weekday), Context(Evening, Weekday), Context(Night, Weekday),
    Context(Morning, Weekend), Context(Afternoon, Weekend), Context(Evening, Weekend), Context(Night, Weekend),
    Context(AllDay, AnyDay)
  ]

  /** The scored contexts pair each timed bucket with each kind of day, and the whole day with all days. */
  lemma ContextsAreNine(x: Context)
    ensures x in CONTEXTS <==> (x.bucket == AllDay <==> x.weekday == AnyDay)
  {
    assert CONTEXTS[0] == Context(Morning, Weekday) && CONTEXTS[1] == Context(Afternoon, Weekday) &&
           CONTEXTS[2] == Context(Evening, Weekday) && CONTEXTS[3] == Context(Night, Weekday);
    assert CONTEXTS[4] == Context(Morning, Weekend) && CONTEXTS[5] == Context(Afternoon, Weekend) &&
           CONTEXTS[6] == Context(Evening, Weekend) && CONTEXTS[7] == Context(Night, Weekend);
    assert CONTEXTS[8] == Context(AllDay, AnyDay);
  }

  /** The SQL list of adjacent pairs. */
  const ADJACENT_PAIRS: seq<(TimeBucket, TimeBucket)> := [
    (Morning, Afternoon), (Afternoon, Morning),
    (Afternoon, Evening), (Evening, Afternoon),
    (Evening, Night), (Night, Evening),
    (Night, Morning), (Morning, Night)
  ]

  predicate Adjacent(a: TimeBucket, b: TimeBucket) {
    (a, b) in ADJACENT_PAIRS
  }

  /** The bucket is a at hour h and b one hour later. */
  predicate MeetAt(a: TimeBucket, b: TimeBucket, h: int) {
    0 <= h < 24 && HourToTimeBucket(h) == a && HourToTimeBucket(if h == 23 then 0 else h + 1) == b
  }

  /** The listed pairs are the buckets that meet around the clock: some hour of one is followed by an hour of the other. */
  lemma AdjacentAroundTheClock(a: TimeBucket, b: TimeBucket)
    requires a != AllDay && b != AllDay && a != b
    ensures Adjacent(a, b) <==> exists h :: MeetAt(a, b, h) || MeetAt(b, a, h)
  {
    assert MeetAt(Morning, Afternoon, 11) && MeetAt(Afternoon, Evening, 17) && MeetAt(Evening, Night, 21) && MeetAt(Night, Morning, 5);
    forall h | MeetAt(a, b, h) || MeetAt(b, a, h) ensures Adjacent(a, b) {
      assert h == 5 || h == 11 || h == 17 || h == 21;
      PairsListed(a, b);
    }
    PairsListed(a, b);
  }

  lemma PairsListed(a: TimeBucket, b: TimeBucket)
    ensures Adjacent(a, b) <==> (a, b) == (Morning, Afternoon) || (a, b) == (Afternoon, Morning) ||
                                (a, b) == (Afternoon, Evening) || (a, b) == (Evening, Afternoon) ||
                                (a, b) == (Evening, Night) || (a, b) == (Night, Evening) ||
                                (a, b) == (Night, Morning) || (a, b) == (Morning, Night)
  {
    assert ADJACENT_PAIRS[0] == (Morning, Afternoon) && ADJACENT_PAIRS[1] == (Afternoon, Morning) &&
           ADJACENT_PAIRS[2] == (Afternoon, Evening) && ADJACENT_PAIRS[3] == (Evening, Afternoon);
    assert ADJACENT_PAIRS[4] == (Evening, Night) && ADJACENT_PAIRS[5] == (Night, Evening) &&
           ADJACENT_PAIRS[6] == (Night, Morning) && ADJACENT_PAIRS[7] == (Morning, Night);
  }
}
