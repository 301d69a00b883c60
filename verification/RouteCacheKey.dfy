/** The printed cache key of a safe-routes request, and why two requests share it only when their fields agree. */
module RouteCacheKey {
  import opened RiskContexts

  /** A coordinate printed with five decimals: a sign and a whole number of 1e-5 units. A small negative
  coordinate prints as minus zero, which is a key of its own. */
  datatype Fixed5 = Fixed5(negative: bool, units: nat)

  datatype KeyFields = KeyFields(originLat: Fixed5, originLng: Fixed5, destLat: Fixed5, destLng: Fixed5,
                                 bucket: TimeBucket, weekday: WeekdayType, model: int)

  /** Round to the nearest 1e-5, exact halves to the even neighbour. */
  function ToFixed5(x: real): Fixed5 {
    var scaled := (if x < 0.0 then -x else x) * 100000.0;
    var low := scaled.Floor;
    var rest := scaled - low as real;
    Fixed5(x < 0.0, if rest < 0.5 || (rest == 0.5 && low % 2 == 0) then low else low + 1)
  }

  /** The units printed are the nearest ones, an even number of them when two are equally near. */
  lemma Fixed5IsNearest(x: real, u: nat)
    ensures var scaled := (if x < 0.0 then -x else x) * 100000.0;
            && ToFixed5(x).negative == (x < 0.0)
            && (ToFixed5(x).units == u <==>
                  (u as real - 0.5 < scaled < u as real + 0.5) ||
                  (u % 2 == 0 && (scaled == u as real - 0.5 || scaled == u as real + 0.5)))
  {
  }

  /** Coordinates that share a printed form are at most 1e-5 degrees apart. */
  lemma SharedFormIsNear(x: real, y: real)
    requires ToFixed5(x) == ToFixed5(y)
    ensures -0.00001 <= x - y <= 0.00001
  {
  }

  // ---------- printing ----------

  function Digit(d: int): char
    requires 0 <= d < 10
  {
    "0123456789"[d]
  }

  function Digits(n: nat): string {
    if n < 10 then [Digit(n)] else Digits(n / 10) + [Digit(n % 10)]
  }

  /** The low k decimal digits of n, zero-padded. */
  function Padded(n: nat, k: nat): string {
    if k == 0 then "" else Padded(n / 10, k - 1) + [Digit(n % 10)]
  }

  function PrintInt(n: int): string {
    if n < 0 then "-" + Digits(-n) else Digits(n)
  }

  function PrintFixed5(x: Fixed5): string {
    (if x.negative then "-" else "") + Digits(x.units / 100000) + "." + Padded(x.units % 100000, 5)
  }

  function PrintBucket(b: TimeBucket): string {
    match b
    case Morning => "morning"
    case Afternoon => "afternoon"
    case Evening => "evening"
    case Night => "night"
    case AllDay => "all_day"
  }

  function PrintWeekday(w: WeekdayType): string {
    match w
    case Weekday => "weekday"
    case Weekend => "weekend"
    case AnyDay => "all"
  }

  function Join(parts: seq<string>): string {
    if parts == [] then "" else ":" + parts[0] + Join(parts[1..])
  }

  function Parts(f: KeyFields): seq<string> {
    [PrintFixed5(f.originLat), PrintFixed5(f.originLng), PrintFixed5(f.destLat), PrintFixed5(f.destLng),
     PrintBucket(f.bucket), PrintWeekday(f.weekday), PrintInt(f.model)]
  }

  function PrintKey(f: KeyFields): string {
    "route:safe" + Join(Parts(f))
  }

  lemma {:induction false} PaddedLength(n: nat, k: nat)
    ensures |Padded(n, k)| == k
  {
    if k > 0 { PaddedLength(n / 10, k - 1); }
  }

  /** Five digits follow the point. */
  lemma FiveDecimals(x: Fixed5)
    ensures |PrintFixed5(x)| >= 7 && PrintFixed5(x)[|PrintFixed5(x)| - 6] == '.'
  {
    PaddedLength(x.units % 100000, 5);
  }

  // ---------- reading the numbers back ----------

  function DigitValue(c: char): int {
    if '0' <= c <= '9' then c as int - '0' as int else -1
  }

  /** The number spelled by the digits of s; other characters are skipped. */
  function Value(s: string): int {
    if s == "" then 0
    else
      var d := DigitValue(s[|s| - 1]);
      if d >= 0 then 10 * Value(s[..|s| - 1]) + d else Value(s[..|s| - 1])
  }

  lemma DigitReads(d: int)
    requires 0 <= d < 10
    ensures DigitValue(Digit(d)) == d
  {
  }

  lemma {:induction false} DigitsRead(n: nat)
    ensures Value(Digits(n)) == n
  {
    DigitReads(n % 10);
    if n < 10 {
      assert "" + [Digit(n)] == [Digit(n)];
    } else {
      DigitsRead(n / 10);
    }
  }

  function Pow10(k: nat): nat {
    if k == 0 then 1 else 10 * Pow10(k - 1)
  }

  /** Appending k padded digits shifts the number read so far. */
  lemma {:induction false} PaddedReads(s: string, n: nat, k: nat)
    requires n < Pow10(k)
    ensures Value(s + Padded(n, k)) == Value(s) * Pow10(k) + n
  {
    if k == 0 {
      assert s + "" == s;
    } else {
      PaddedReads(s, n / 10, k - 1);
      DigitReads(n % 10);
      assert s + Padded(n, k) == s + Padded(n / 10, k - 1) + [Digit(n % 10)];
      Shift(Value(s), Pow10(k - 1), n);
    }
  }

  lemma Shift(v: int, p: int, n: nat)
    ensures 10 * (v * p + n / 10) + n % 10 == v * (10 * p) + n
  {
  }

  /** A minus sign in front does not change the number read. */
  lemma {:induction false} SignSkipped(s: string)
    ensures Value("-" + s) == Value(s)
  {
    if s == "" {
      assert "-" + "" == "-" && "-"[..0] == "";
    } else {
      SignSkipped(s[..|s| - 1]);
      assert ("-" + s)[..|s|] == "-" + s[..|s| - 1];
    }
  }

  lemma {:induction false} DigitsStartWithDigit(n: nat)
    ensures Digits(n) != "" && DigitValue(Digits(n)[0]) >= 0
  {
    if n >= 10 {
      DigitsStartWithDigit(n / 10);
    }
  }

  lemma FiveDigits()
    ensures Pow10(5) == 100000
  {
  }

  lemma Fixed5Reads(x: Fixed5)
    ensures Value(PrintFixed5(x)) == x.units && PrintFixed5(x) != "" && (PrintFixed5(x)[0] == '-' <==> x.negative)
  {
    var whole, fraction := Digits(x.units / 100000), Padded(x.units % 100000, 5);
    UnsignedReads(x.units, whole, fraction);
    DigitsStartWithDigit(x.units / 100000);
    SignedReads(x.negative, whole + "." + fraction);
    assert PrintFixed5(x) == (if x.negative then "-" else "") + (whole + "." + fraction);
  }

  lemma SignedReads(negative: bool, body: string)
    requires body != "" && DigitValue(body[0]) >= 0
    ensures var s := (if negative then "-" else "") + body; Value(s) == Value(body) && s != "" && (s[0] == '-' <==> negative)
  {
    SignSkipped(body);
    assert "" + body == body;
  }

  lemma UnsignedReads(units: nat, whole: string, fraction: string)
    requires whole == Digits(units / 100000) && fraction == Padded(units % 100000, 5)
    ensures Value(whole + "." + fraction) == units
  {
    FiveDigits();
    DigitsRead(units / 100000);
    PaddedReads(whole + ".", units % 100000, 5);
  }

  lemma Fixed5Injective(x: Fixed5, y: Fixed5)
    requires PrintFixed5(x) == PrintFixed5(y)
    ensures x == y
  {
    Fixed5Reads(x);
    Fixed5Reads(y);
  }

  lemma IntInjective(m: int, n: int)
    requires PrintInt(m) == PrintInt(n)
    ensures m == n
  {
    IntReads(m);
    IntReads(n);
  }

  lemma IntReads(n: int)
    ensures Value(PrintInt(n)) == (if n < 0 then -n else n) && PrintInt(n) != "" && (PrintInt(n)[0] == '-' <==> n < 0)
  {
    var m := if n < 0 then -n else n;
    DigitsRead(m);
    DigitsStartWithDigit(m);
    if n < 0 { SignSkipped(Digits(m)); }
  }

  lemma NamesInjective(b: TimeBucket, c: TimeBucket, v: WeekdayType, w: WeekdayType)
    ensures PrintBucket(b) == PrintBucket(c) ==> b == c
    ensures PrintWeekday(v) == PrintWeekday(w) ==> v == w
  {
  }

  // ---------- separating the fields ----------

  predicate ColonFree(s: string) {
    forall i :: 0 <= i < |s| ==> s[i] != ':'
  }

  /** A printed list of colon-free parts determines the parts. */
  lemma {:induction false} JoinInjective(a: seq<string>, b: seq<string>)
    requires Join(a) == Join(b)
    requires (forall p :: p in a ==> ColonFree(p)) && (forall p :: p in b ==> ColonFree(p))
    ensures a == b
    decreases |a|
  {
    if a != [] && b != [] {
      var p, q, s, t := a[0], b[0], Join(a[1..]), Join(b[1..]);
      assert Join(a) == ":" + p + s && Join(b) == ":" + q + t;
      assert (":" + p + s)[1..] == p + s && (":" + q + t)[1..] == q + t;
      assert p in a && q in b;
      FirstPart(p, s, q, t);
      JoinInjective(a[1..], b[1..]);
    }
  }

  function UpToColon(s: string): nat {
    if s == "" || s[0] == ':' then 0 else 1 + UpToColon(s[1..])
  }

  lemma {:induction false} UpToColonSkips(p: string, s: string)
    requires ColonFree(p) && (s == "" || s[0] == ':')
    ensures UpToColon(p + s) == |p|
  {
    if p == "" {
      assert p + s == s;
    } else {
      UpToColonSkips(p[1..], s);
      assert (p + s)[1..] == p[1..] + s;
    }
  }

  /** Where the first colon stands tells where the first part ends. */
  lemma FirstPart(p: string, s: string, q: string, t: string)
    requires ColonFree(p) && ColonFree(q) && p + s == q + t
    requires (s == "" || s[0] == ':') && (t == "" || t[0] == ':')
    ensures p == q && s == t
  {
    UpToColonSkips(p, s);
    UpToColonSkips(q, t);
    assert p == (p + s)[..|p|] == (q + t)[..|q|] == q;
    assert s == (p + s)[|p|..] == (q + t)[|q|..] == t;
  }

  lemma {:induction false} DigitsColonFree(n: nat)
    ensures ColonFree(Digits(n))
  {
    if n >= 10 {
      DigitsColonFree(n / 10);
    }
  }

  lemma {:induction false} PaddedColonFree(n: nat, k: nat)
    ensures ColonFree(Padded(n, k))
  {
    if k > 0 {
      PaddedColonFree(n / 10, k - 1);
    }
  }

  lemma Fixed5ColonFree(x: Fixed5)
    ensures ColonFree(PrintFixed5(x))
  {
    DigitsColonFree(x.units / 100000);
    PaddedColonFree(x.units % 100000, 5);
  }

  lemma PartsColonFree(f: KeyFields)
    ensures forall p :: p in Parts(f) ==> ColonFree(p)
  {
    Fixed5ColonFree(f.originLat);
    Fixed5ColonFree(f.originLng);
    Fixed5ColonFree(f.destLat);
    Fixed5ColonFree(f.destLng);
    DigitsColonFree(if f.model < 0 then -f.model else f.model);
  }

  /** Two requests share a cache key only when all seven fields agree. */
  lemma KeyInjective(f: KeyFields, g: KeyFields)
    requires PrintKey(f) == PrintKey(g)
    ensures f == g
  {
    assert PrintKey(f)[10..] == Join(Parts(f)) && PrintKey(g)[10..] == Join(Parts(g));
    PartsColonFree(f);
    PartsColonFree(g);
    JoinInjective(Parts(f), Parts(g));
    SamePart(f, g);
  }

  lemma SamePart(f: KeyFields, g: KeyFields)
    requires Parts(f) == Parts(g)
    ensures f == g
  {
    forall i | 0 <= i < 7 ensures Parts(f)[i] == Parts(g)[i] {}
    Fixed5Injective(f.originLat, g.originLat);
    Fixed5Injective(f.originLng, g.originLng);
    Fixed5Injective(f.destLat, g.destLat);
    Fixed5Injective(f.destLng, g.destLng);
    NamesInjective(f.bucket, g.bucket, f.weekday, g.weekday);
    IntInjective(f.model, g.model);
  }
}
