/** Keyset pagination of nearby crimes: pages ordered by (distance, id), resumed after the last kept row. */
module KeysetPaging {
  import opened Options
  import opened FiniteSets

  /** A crime at its distance from the query point; ids are the primary key. */
  datatype Crime = Crime(id: int, distance: real, details: string)

  datatype Cursor = Cursor(distance: real, id: int)

  datatype Page = Page(items: seq<Crime>, hasMore: bool, next: Option<Cursor>)

  function KeyOf(c: Crime): Cursor {
    Cursor(c.distance, c.id)
  }

  predicate Before(a: Cursor, b: Cursor) {
    a.distance < b.distance || (a.distance == b.distance && a.id < b.id)
  }

  ghost predicate DistinctIds(table: set<Crime>) {
    forall a, b :: a in table && b in table && a.id == b.id ==> a == b
  }

  ghost predicate Ascending(rows: seq<Crime>) {
    forall i, j :: 0 <= i < j < |rows| ==> Before(KeyOf(rows[i]), KeyOf(rows[j]))
  }

  // ---------- the query's contract ----------

  predicate IsAfter(c: Crime, cursor: Option<Cursor>) {
    cursor.None? || Before(cursor.value, KeyOf(c))
  }

  /** The rows within the radius and strictly after the cursor. */
  ghost function Eligible(table: set<Crime>, radius: real, cursor: Option<Cursor>): set<Crime> {
    set c | c in table && c.distance <= radius && IsAfter(c, cursor)
  }

  /** ORDER BY distance, id LIMIT n: an ascending run of eligible rows that skips none, cut only by the limit. */
  ghost predicate IsResult(table: set<Crime>, radius: real, cursor: Option<Cursor>, n: int, rows: seq<Crime>) {
    && Ascending(rows) && |rows| <= n
    && (forall c :: c in rows ==> c in Eligible(table, radius, cursor))
    && (forall c, r :: c in Eligible(table, radius, cursor) && c !in rows && r in rows ==> Before(KeyOf(r), KeyOf(c)))
    && (|rows| < n ==> forall c :: c in Eligible(table, radius, cursor) ==> c in rows)
  }

  // ---------- one page ----------

  /** A page keeps the first rows after the cursor, and points at its last row exactly when more follow. */
  ghost predicate IsPage(table: set<Crime>, radius: real, cursor: Option<Cursor>, limit: int, page: Page) {
    && IsResult(table, radius, cursor, limit, page.items)
    && (page.hasMore <==> exists c :: c in Eligible(table, radius, cursor) && c !in page.items)
    && (page.hasMore ==> |page.items| == limit >= 1 && page.next == Some(KeyOf(page.items[limit - 1])))
    && (!page.hasMore ==> page.next.None?)
  }

  /** One row more than the page is fetched; when it comes back it is dropped and only tells that more exist. */
  method FindNearby(ghost table: set<Crime>, ghost radius: real, ghost cursor: Option<Cursor>, limit: int, fetched: seq<Crime>)
    returns (page: Page)
    requires limit >= 1 && IsResult(table, radius, cursor, limit + 1, fetched)
    ensures IsPage(table, radius, cursor, limit, page)
  {
    var items: seq<Crime>, keys: seq<Cursor> := [], [];
    for i := 0 to |fetched|
      invariant items == fetched[..i]
      invariant |keys| == i && forall k :: 0 <= k < i ==> keys[k] == KeyOf(fetched[k])
    {
      items := items + [fetched[i]];
      keys := keys + [KeyOf(fetched[i])];
    }
    assert items == fetched;
    page := Page(items, false, None);
    if |items| > limit {
      page := Page(items[..limit], true, Some(keys[limit - 1]));
    }
    TrimmedIsPage(table, radius, cursor, limit, fetched, page);
  }

  lemma TrimmedIsPage(table: set<Crime>, radius: real, cursor: Option<Cursor>, limit: int, fetched: seq<Crime>, page: Page)
    requires limit >= 1 && IsResult(table, radius, cursor, limit + 1, fetched)
    requires page == if |fetched| > limit then Page(fetched[..limit], true, Some(KeyOf(fetched[limit - 1])))
                     else Page(fetched, false, None)
    ensures IsPage(table, radius, cursor, limit, page)
  {
    if |fetched| > limit {
      TrimProbe(table, radius, cursor, limit, fetched);
    }
  }

  lemma TrimProbe(table: set<Crime>, radius: real, cursor: Option<Cursor>, limit: int, fetched: seq<Crime>)
    requires limit >= 1 && IsResult(table, radius, cursor, limit + 1, fetched) && |fetched| > limit
    ensures IsResult(table, radius, cursor, limit, fetched[..limit])
    ensures fetched[limit] in Eligible(table, radius, cursor) && fetched[limit] !in fetched[..limit]
  {
  }

  // ---------- a whole walk, the table changing between pages ----------

  function Flatten(pages: seq<Page>): seq<Crime> {
    if pages == [] then [] else Flatten(pages[..|pages| - 1]) + pages[|pages| - 1].items
  }

  /** The cursor with which page k is asked for. */
  function CursorAt(pages: seq<Page>, k: int): Option<Cursor>
    requires 0 <= k <= |pages|
  {
    if k == 0 then None else pages[k - 1].next
  }

  /** Page k is answered from tables(k), and only the last page may have nothing after it. */
  ghost predicate IsPageAt(tables: nat -> set<Crime>, radius: real, limit: int, pages: seq<Page>, k: int)
    requires 0 <= k < |pages|
  {
    && DistinctIds(tables(k)) && IsPage(tables(k), radius, CursorAt(pages, k), limit, pages[k])
    && (k < |pages| - 1 ==> pages[k].hasMore)
  }

  ghost predicate IsPartialWalk(tables: nat -> set<Crime>, radius: real, limit: int, pages: seq<Page>) {
    limit >= 1 && forall k :: 0 <= k < |pages| ==> IsPageAt(tables, radius, limit, pages, k)
  }

  ghost predicate IsFinishedWalk(tables: nat -> set<Crime>, radius: real, limit: int, pages: seq<Page>) {
    IsPartialWalk(tables, radius, limit, pages) && pages != [] && !pages[|pages| - 1].hasMore
  }

  /** The first n pages of a walk are a walk. */
  lemma PrefixWalk(tables: nat -> set<Crime>, radius: real, limit: int, pages: seq<Page>, n: int)
    requires IsPartialWalk(tables, radius, limit, pages) && 0 <= n <= |pages|
    ensures IsPartialWalk(tables, radius, limit, pages[..n])
    ensures CursorAt(pages[..n], n) == CursorAt(pages, n)
  {
    var before := pages[..n];
    forall k | 0 <= k < n ensures IsPageAt(tables, radius, limit, before, k) {
      assert IsPageAt(tables, radius, limit, pages, k);
      assert before[k] == pages[k] && CursorAt(before, k) == CursorAt(pages, k);
    }
  }

  /** Nothing returned so far comes after the next cursor. */
  ghost predicate EndsAt(rows: seq<Crime>, cursor: Option<Cursor>) {
    forall r :: r in rows ==> cursor.Some? && (KeyOf(r) == cursor.value || Before(KeyOf(r), cursor.value))
  }

  lemma AppendPage(rows: seq<Crime>, cursor: Option<Cursor>, items: seq<Crime>)
    requires Ascending(rows) && EndsAt(rows, cursor) && Ascending(items) && forall c :: c in items ==> IsAfter(c, cursor)
    ensures Ascending(rows + items)
  {
    forall i, j | 0 <= i < |rows| && 0 <= j < |items| ensures Before(KeyOf(rows[i]), KeyOf(items[j])) {
      assert rows[i] in rows && items[j] in items;
    }
  }

  ghost predicate AscendsTo(rows: seq<Crime>, cursor: Option<Cursor>) {
    Ascending(rows) && EndsAt(rows, cursor)
  }

  lemma AscendNext(table: set<Crime>, radius: real, cursor: Option<Cursor>, limit: int, rows: seq<Crime>, page: Page)
    requires AscendsTo(rows, cursor) && IsPage(table, radius, cursor, limit, page)
    ensures Ascending(rows + page.items) && (page.hasMore ==> AscendsTo(rows + page.items, page.next))
  {
    AppendPage(rows, cursor, page.items);
  }

  /** Keys strictly increase through the whole walk, so no row is ever returned twice. */
  lemma {:induction false} WalkAscends(tables: nat -> set<Crime>, radius: real, limit: int, pages: seq<Page>)
    requires IsPartialWalk(tables, radius, limit, pages)
    ensures Ascending(Flatten(pages))
    ensures pages == [] || pages[|pages| - 1].hasMore ==> AscendsTo(Flatten(pages), CursorAt(pages, |pages|))
    decreases |pages|
  {
    if pages != [] {
      var n := |pages| - 1;
      PrefixWalk(tables, radius, limit, pages, n);
      WalkAscends(tables, radius, limit, pages[..n]);
      AscendLast(tables, radius, limit, pages);
    }
  }

  lemma AscendLast(tables: nat -> set<Crime>, radius: real, limit: int, pages: seq<Page>)
    requires IsPartialWalk(tables, radius, limit, pages) && pages != []
    requires var n := |pages| - 1;
             n == 0 || pages[n - 1].hasMore ==> AscendsTo(Flatten(pages[..n]), CursorAt(pages, n))
    ensures Ascending(Flatten(pages))
    ensures pages[|pages| - 1].hasMore ==> AscendsTo(Flatten(pages), CursorAt(pages, |pages|))
  {
    var n := |pages| - 1;
    assert IsPageAt(tables, radius, limit, pages, n) && (n > 0 ==> IsPageAt(tables, radius, limit, pages, n - 1));
    AscendNext(tables(n), radius, CursorAt(pages, n), limit, Flatten(pages[..n]), pages[n]);
  }

  /** c has been returned, or lies after the next cursor and more pages follow. */
  ghost predicate IsAccountedFor(pages: seq<Page>, c: Crime) {
    c in Flatten(pages) || (IsAfter(c, CursorAt(pages, |pages|)) && (pages != [] ==> pages[|pages| - 1].hasMore))
  }

  ghost predicate InAll(tables: nat -> set<Crime>, n: nat, c: Crime) {
    forall k: nat :: k < n ==> c in tables(k)
  }

  /** A row present throughout is accounted for after every page. */
  lemma {:induction false} StillAhead(tables: nat -> set<Crime>, radius: real, limit: int, pages: seq<Page>, n: int, c: Crime)
    requires IsPartialWalk(tables, radius, limit, pages) && 0 <= n <= |pages| && c.distance <= radius && InAll(tables, |pages|, c)
    ensures IsAccountedFor(pages[..n], c)
    decreases n
  {
    if n > 0 {
      StillAhead(tables, radius, limit, pages, n - 1, c);
      NextPageAccounts(tables, radius, limit, pages, n - 1, c);
    } else {
    }
  }

  lemma NextPageAccounts(tables: nat -> set<Crime>, radius: real, limit: int, pages: seq<Page>, n: int, c: Crime)
    requires IsPartialWalk(tables, radius, limit, pages) && 0 <= n < |pages| && c.distance <= radius && InAll(tables, |pages|, c)
    requires IsAccountedFor(pages[..n], c)
    ensures IsAccountedFor(pages[..n + 1], c)
  {
    assert IsPageAt(tables, radius, limit, pages, n);
    AccountedStep(tables(n), radius, CursorAt(pages, n), limit, pages, n, c);
  }

  lemma AccountedStep(table: set<Crime>, radius: real, cursor: Option<Cursor>, limit: int, pages: seq<Page>, n: int, c: Crime)
    requires 0 <= n < |pages| && cursor == CursorAt(pages, n) && IsPage(table, radius, cursor, limit, pages[n])
    requires c.distance <= radius && c in table && IsAccountedFor(pages[..n], c)
    ensures IsAccountedFor(pages[..n + 1], c)
  {
    assert pages[..n + 1][..n] == pages[..n];
  }

  /** Whatever is inserted or deleted between pages, a finished walk returns every row that was present
  throughout exactly once, in strictly increasing key order. */
  lemma EveryStableRowOnce(tables: nat -> set<Crime>, radius: real, limit: int, pages: seq<Page>, c: Crime)
    requires IsFinishedWalk(tables, radius, limit, pages)
    requires c.distance <= radius && InAll(tables, |pages|, c)
    ensures Ascending(Flatten(pages))
    ensures exists i :: 0 <= i < |Flatten(pages)| && Flatten(pages)[i] == c &&
              forall j :: 0 <= j < |Flatten(pages)| && Flatten(pages)[j].id == c.id ==> j == i
  {
    WalkAscends(tables, radius, limit, pages);
    WalkReturnsOnlyRows(tables, radius, limit, pages);
    StillAhead(tables, radius, limit, pages, |pages|, c);
    assert pages[..|pages|] == pages;
    var rows := Flatten(pages);
    var i :| 0 <= i < |rows| && rows[i] == c;
    forall j | 0 <= j < |rows| && rows[j].id == c.id ensures j == i {
      OneVersion(tables, radius, limit, pages, c, rows[j]);
      assert !(i < j) && !(j < i);
    }
  }

  /** A returned row with the id of one that never changes is that one. */
  lemma OneVersion(tables: nat -> set<Crime>, radius: real, limit: int, pages: seq<Page>, c: Crime, r: Crime)
    requires IsPartialWalk(tables, radius, limit, pages) && InAll(tables, |pages|, c)
    requires Present(tables, |pages|, radius, r) && r.id == c.id
    ensures r == c
  {
    var k: nat :| k < |pages| && r in tables(k);
    assert IsPageAt(tables, radius, limit, pages, k);
  }

  // ---------- a whole walk over an unchanged table ----------

  ghost function InRadius(table: set<Crime>, radius: real): set<Crime> {
    Eligible(table, radius, None)
  }

  lemma {:induction false} WalkReturnsOnlyRows(tables: nat -> set<Crime>, radius: real, limit: int, pages: seq<Page>)
    requires IsPartialWalk(tables, radius, limit, pages)
    ensures forall c :: c in Flatten(pages) ==> Present(tables, |pages|, radius, c)
    decreases |pages|
  {
    if pages != [] {
      var n := |pages| - 1;
      var before := pages[..n];
      PrefixWalk(tables, radius, limit, pages, n);
      WalkReturnsOnlyRows(tables, radius, limit, before);
      forall c | c in pages[n].items ensures Present(tables, |pages|, radius, c) {
        PageReturnsOnlyRows(tables, radius, limit, pages, n, c);
      }
      forall c | c in Flatten(before) ensures Present(tables, |pages|, radius, c) {
        assert Present(tables, n, radius, c);
      }
    }
  }

  /** Some version of the table had the row, within the radius. */
  ghost predicate Present(tables: nat -> set<Crime>, n: nat, radius: real, c: Crime) {
    exists k: nat :: k < n && c in tables(k) && c.distance <= radius
  }

  lemma PageReturnsOnlyRows(tables: nat -> set<Crime>, radius: real, limit: int, pages: seq<Page>, n: int, c: Crime)
    requires IsPartialWalk(tables, radius, limit, pages) && 0 <= n < |pages| && c in pages[n].items
    ensures Present(tables, |pages|, radius, c)
  {
    assert IsPageAt(tables, radius, limit, pages, n);
    assert c in tables(n);
  }

  /** Over an unchanged table the walk lists exactly the in-radius rows, ascending. */
  lemma WalkListsTable(table: set<Crime>, tables: nat -> set<Crime>, radius: real, limit: int, pages: seq<Page>)
    requires IsFinishedWalk(tables, radius, limit, pages) && forall k: nat :: tables(k) == table
    ensures forall i, j :: 0 <= i < j < |Flatten(pages)| ==>
              Flatten(pages)[i].distance < Flatten(pages)[j].distance ||
              (Flatten(pages)[i].distance == Flatten(pages)[j].distance && Flatten(pages)[i].id < Flatten(pages)[j].id)
    ensures forall c :: c in Flatten(pages) <==> c in table && c.distance <= radius
  {
    WalkAscends(tables, radius, limit, pages);
    WalkReturnsOnlyRows(tables, radius, limit, pages);
    forall c | c in InRadius(table, radius) ensures c in Flatten(pages) {
      StillAhead(tables, radius, limit, pages, |pages|, c);
      assert pages[..|pages|] == pages;
    }
  }

  lemma {:induction false} AscendingCount(rows: seq<Crime>, s: set<Crime>)
    requires Ascending(rows) && forall c :: c in rows <==> c in s
    ensures |rows| == |s|
    decreases |rows|
  {
    if rows == [] {
      assert s == {};
    } else {
      var n := |rows| - 1;
      var last := rows[n];
      assert rows == rows[..n] + [last];
      assert last !in rows[..n] by {
        forall i | 0 <= i < n ensures rows[..n][i] != last {
          assert Before(KeyOf(rows[i]), KeyOf(rows[n]));
        }
      }
      AscendingCount(rows[..n], s - {last});
    }
  }

  lemma PageIsFull(tables: nat -> set<Crime>, radius: real, limit: int, pages: seq<Page>, n: int)
    requires IsPartialWalk(tables, radius, limit, pages) && 0 <= n < |pages|
    ensures |pages[n].items| <= limit && (n < |pages| - 1 ==> |pages[n].items| == limit)
  {
    assert IsPageAt(tables, radius, limit, pages, n);
  }

  /** Every page with a successor is full. */
  lemma {:induction false} FullPages(tables: nat -> set<Crime>, radius: real, limit: int, pages: seq<Page>, n: int)
    requires IsPartialWalk(tables, radius, limit, pages) && 0 <= n < |pages|
    ensures |Flatten(pages[..n])| == limit * n
    decreases n
  {
    if n > 0 {
      FullPages(tables, radius, limit, pages, n - 1);
      PageIsFull(tables, radius, limit, pages, n - 1);
      FlattenTo(pages, n - 1);
    }
  }

  lemma FlattenTo(pages: seq<Page>, n: int)
    requires 0 <= n < |pages|
    ensures Flatten(pages[..n + 1]) == Flatten(pages[..n]) + pages[n].items
  {
    assert pages[..n + 1][..n] == pages[..n];
  }

  /** The last page of an unchanged table is empty only when nothing is in the radius. */
  lemma LastPageNotEmpty(table: set<Crime>, tables: nat -> set<Crime>, radius: real, limit: int, pages: seq<Page>)
    requires IsFinishedWalk(tables, radius, limit, pages) && |pages| >= 2
    requires forall k: nat :: tables(k) == table
    ensures pages[|pages| - 1].items != []
  {
    var n := |pages| - 1;
    assert IsPageAt(tables, radius, limit, pages, n - 1);
    var c :| c in Eligible(table, radius, CursorAt(pages, n - 1)) && c !in pages[n - 1].items;
    assert pages[n - 1].items[limit - 1] in pages[n - 1].items;
    assert IsPageAt(tables, radius, limit, pages, n);
    assert c in Eligible(table, radius, CursorAt(pages, n));
    assert c in pages[n].items;
  }

  /** n rows in the radius take max(1, ceil(n / limit)) pages. */
  lemma PageCount(table: set<Crime>, tables: nat -> set<Crime>, radius: real, limit: int, pages: seq<Page>)
    requires IsFinishedWalk(tables, radius, limit, pages) && forall k: nat :: tables(k) == table
    ensures var n := |InRadius(table, radius)|;
            |pages| == if n == 0 then 1 else (n + limit - 1) / limit
  {
    WalkListsTable(table, tables, radius, limit, pages);
    AscendingCount(Flatten(pages), InRadius(table, radius));
    var p := |pages| - 1;
    FullPages(tables, radius, limit, pages, p);
    PageIsFull(tables, radius, limit, pages, p);
    var last := |pages[p].items|;
    if p >= 1 { LastPageNotEmpty(table, tables, radius, limit, pages); }
    CeilDivision(limit, p, last);
  }

  lemma CeilDivision(limit: int, p: int, last: int)
    requires limit >= 1 && p >= 0 && 0 <= last <= limit && (p >= 1 ==> last >= 1)
    ensures var n := limit * p + last; p + 1 == if n == 0 then 1 else (n + limit - 1) / limit
  {
    var n := limit * p + last;
    if n > 0 {
      assert n + limit - 1 == limit * (p + 1) + (last - 1);
      QuotientIs(n + limit - 1, limit, p + 1, last - 1);
    }
  }

  lemma QuotientIs(a: int, d: int, q: int, r: int)
    requires d >= 1 && a == d * q + r && 0 <= r < d
    ensures a / d == q
  {
    var q', r' := a / d, a % d;
    assert a == d * q' + r' && 0 <= r' < d;
    assert d * (q - q') == r' - r;
    assert q - q' >= 1 ==> d * (q - q') >= d;
    assert q - q' <= -1 ==> d * (q - q') <= -d;
  }

  // ---------- every walk finishes ----------

  lemma {:induction false} FirstRow(s: set<Crime>) returns (first: Crime)
    requires s != {} && DistinctIds(s)
    ensures first in s && forall c :: c in s && c != first ==> Before(KeyOf(first), KeyOf(c))
    decreases |s|
  {
    first := SomeElement(s);
    var rest := s - {first};
    if rest != {} {
      var other := FirstRow(rest);
      forall c | c in s ensures c == first || c in rest {}
      if Before(KeyOf(other), KeyOf(first)) { first := other; }
    } else {
      forall c | c in s ensures c == first { assert c !in rest; }
    }
  }

  /** The query always has an answer, and the eligible rows shrink by the page with every further request. */
  lemma {:induction false} PageExists(table: set<Crime>, radius: real, cursor: Option<Cursor>, n: nat) returns (rows: seq<Crime>)
    requires DistinctIds(table)
    ensures IsResult(table, radius, cursor, n, rows)
    decreases n
  {
    rows := [];
    if n > 0 {
      rows := PageExists(table, radius, cursor, n - 1);
      var left := Eligible(table, radius, cursor) - set c | c in rows;
      if left != {} {
        var first := FirstRow(left);
        forall r | r in rows ensures Before(KeyOf(r), KeyOf(first)) {}
        ExtendResult(table, radius, cursor, n, rows, first);
        rows := rows + [first];
      } else {
        forall c | c in Eligible(table, radius, cursor) ensures c in rows { assert c !in left; }
      }
    }
  }

  lemma ExtendResult(table: set<Crime>, radius: real, cursor: Option<Cursor>, n: nat, rows: seq<Crime>, first: Crime)
    requires n > 0 && IsResult(table, radius, cursor, n - 1, rows) && first in Eligible(table, radius, cursor) && first !in rows
    requires forall c :: c in Eligible(table, radius, cursor) && c !in rows && c != first ==> Before(KeyOf(first), KeyOf(c))
    ensures IsResult(table, radius, cursor, n, rows + [first])
  {
  }

  lemma AddPage(tables: nat -> set<Crime>, radius: real, limit: int, pages: seq<Page>, page: Page)
    requires IsPartialWalk(tables, radius, limit, pages) && (pages != [] ==> pages[|pages| - 1].hasMore)
    requires DistinctIds(tables(|pages|)) && IsPage(tables(|pages|), radius, CursorAt(pages, |pages|), limit, page)
    ensures IsPartialWalk(tables, radius, limit, pages + [page])
  {
    var longer := pages + [page];
    forall k | 0 <= k < |longer| ensures IsPageAt(tables, radius, limit, longer, k) {
      if k < |pages| {
        assert IsPageAt(tables, radius, limit, pages, k);
        assert longer[k] == pages[k];
      }
    }
  }

  /** The walk can go on by one page, and what is still eligible shrinks if that page has more. */
  lemma NextPage(table: set<Crime>, tables: nat -> set<Crime>, radius: real, limit: int, pages: seq<Page>) returns (page: Page)
    requires DistinctIds(table) && tables(|pages|) == table
    requires IsPartialWalk(tables, radius, limit, pages) && (pages != [] ==> pages[|pages| - 1].hasMore)
    ensures IsPartialWalk(tables, radius, limit, pages + [page])
    ensures page.hasMore ==> |Eligible(table, radius, page.next)| < |Eligible(table, radius, CursorAt(pages, |pages|))|
  {
    var cursor := CursorAt(pages, |pages|);
    var fetched := PageExists(table, radius, cursor, limit + 1);
    page := if |fetched| > limit then Page(fetched[..limit], true, Some(KeyOf(fetched[limit - 1]))) else Page(fetched, false, None);
    TrimmedIsPage(table, radius, cursor, limit, fetched, page);
    AddPage(tables, radius, limit, pages, page);
    if page.hasMore {
      SmallerSet(Eligible(table, radius, page.next), Eligible(table, radius, cursor));
    }
  }

  /** Following `next` over an unchanged table always comes to an end: a walk that still has more can be
  continued to a finished one. */
  lemma {:induction false} WalkFinishes(table: set<Crime>, tables: nat -> set<Crime>, radius: real, limit: int, pages: seq<Page>)
    returns (finished: seq<Page>)
    requires DistinctIds(table) && forall k: nat :: tables(k) == table
    requires IsPartialWalk(tables, radius, limit, pages) && (pages != [] ==> pages[|pages| - 1].hasMore)
    ensures IsFinishedWalk(tables, radius, limit, finished)
    decreases |Eligible(table, radius, CursorAt(pages, |pages|))|
  {
    var page := NextPage(table, tables, radius, limit, pages);
    finished := pages + [page];
    if page.hasMore {
      assert CursorAt(finished, |finished|) == page.next;
      finished := WalkFinishes(table, tables, radius, limit, finished);
    }
  }

  lemma {:induction false} SmallerSet(a: set<Crime>, b: set<Crime>)
    requires a < b
    ensures |a| < |b|
  {
    var c := SomeElement(b - a);
    assert a <= b - {c};
    SubsetSize(a, b - {c});
  }

  lemma {:induction false} SubsetSize(a: set<Crime>, b: set<Crime>)
    requires a <= b
    ensures |a| <= |b|
    decreases |a|
  {
    if a != {} {
      var c := SomeElement(a);
      SubsetSize(a - {c}, b - {c});
    }
  }
}
