/** Keyset paging of a tenant's members over a changing table, and the audit list that pages otherwise. */
module Paging {
  import opened Wrappers

  /** The order of both lists: created_at, then id. */
  datatype Key = Key(at: int, id: nat)

  datatype Row = Row(key: Key, data: string)

  predicate Below(a: Key, b: Key) {
    a.at < b.at || (a.at == b.at && a.id < b.id)
  }

  /** The rows a query ranges over, ORDER BY created_at DESC, id DESC. */
  predicate Descending(rows: seq<Row>) {
    forall i, j :: 0 <= i < j < |rows| ==> Below(rows[j].key, rows[i].key)
  }

  predicate Under(row: Row, cursor: Option<Key>) {
    cursor.Some? ==> Below(row.key, cursor.value)
  }

  /** WHERE (created_at, id) < cursor. */
  function From(rows: seq<Row>, cursor: Option<Key>): seq<Row> {
    if rows == [] || Under(rows[0], cursor) then rows else From(rows[1..], cursor)
  }

  function Fetch(rows: seq<Row>, cursor: Option<Key>, n: nat): seq<Row> {
    var below := From(rows, cursor);
    if |below| <= n then below else below[..n]
  }

  function Clamp(limit: int): (n: nat)
    ensures 1 <= n <= 200
    ensures 1 <= limit <= 200 ==> n == limit
    ensures limit < 1 || limit > 200 ==> n == 50
  {
    if limit <= 0 || limit > 200 then 50 else limit
  }

  datatype Page = Page(rows: seq<Row>, next: Option<Key>)

  function PageOf(table: seq<Row>, limit: int, cursor: Option<Key>): Page {
    var n := Clamp(limit);
    var below := From(table, cursor);
    if |below| <= n then Page(below, None) else Page(below[..n], Some(below[n - 1].key))
  }

  function Size(limit: int): nat {
    if 1 <= limit && limit <= 200 then limit else 50
  }

  /** Descending rows of the table below the cursor, no more than the size. */
  ghost predicate RowsMean(table: seq<Row>, limit: int, cursor: Option<Key>, rows: seq<Row>) {
    && |rows| <= Size(limit) && Descending(rows)
    && forall r :: r in rows ==> r in table && Under(r, cursor)
  }

  predicate LeftOver(table: seq<Row>, cursor: Option<Key>, rows: seq<Row>, r: Row) {
    r in table && Under(r, cursor) && r !in rows
  }

  /**
   * Without a cursor in the answer nothing is left over; with one the page is full, the cursor is the key of
   * its last row, and what is left over, something, is below that.
   */
  ghost predicate PageMeans(table: seq<Row>, limit: int, cursor: Option<Key>, page: Page) {
    && RowsMean(table, limit, cursor, page.rows)
    && (page.next.None? <==> forall r :: !LeftOver(table, cursor, page.rows, r))
    && (page.next.Some? ==>
          && |page.rows| == Size(limit) && page.next.value == page.rows[Size(limit) - 1].key
          && forall r :: LeftOver(table, cursor, page.rows, r) ==> Below(r.key, page.next.value))
  }

  /** One page: a row more than the limit is fetched to know whether another page follows. */
  method ListByTenant(table: seq<Row>, limit: int, cursor: Option<Key>) returns (page: Page)
    ensures page == PageOf(table, limit, cursor)
    ensures Descending(table) ==> PageMeans(table, limit, cursor, page)
  {
    if Descending(table) {
      PageIsMeant(table, limit, cursor);
    }
    var n := limit;
    if n <= 0 || n > 200 {
      n := 50;
    }
    var fetched := Fetch(table, cursor, n + 1);
    var out, i := [], 0;
    while i < |fetched|
      invariant 0 <= i <= |fetched| && out == fetched[..i]
    {
      out := out + [fetched[i]];
      i := i + 1;
    }
    var next := None;
    if |out| > n {
      next := Some(out[n - 1].key);
      out := out[..n];
    }
    return Page(out, next);
  }

  lemma {:induction false} FromIs(rows: seq<Row>, cursor: Option<Key>)
    requires Descending(rows)
    ensures Descending(From(rows, cursor)) && |From(rows, cursor)| <= |rows|
    ensures forall r :: r in From(rows, cursor) <==> r in rows && Under(r, cursor)
  {
    if rows != [] {
      if Under(rows[0], cursor) {
        forall r | r in rows ensures Under(r, cursor) {
        }
      } else {
        FromIs(rows[1..], cursor);
        assert rows == [rows[0]] + rows[1..];
      }
    }
  }

  // ---------------------------------------------------------------------------------------
  // Following the cursor
  // ---------------------------------------------------------------------------------------

  datatype Traversal = Traversal(rows: seq<Row>, done: bool)

  /** Page after page, each from the table as it is by then, until no cursor comes back. */
  function Follow(tables: seq<seq<Row>>, limits: seq<int>, cursor: Option<Key>): Traversal
    requires |limits| == |tables|
  {
    if tables == [] then Traversal([], false)
    else
      var page := PageOf(tables[0], limits[0], cursor);
      if page.next.None? then Traversal(page.rows, true)
      else
        var rest := Follow(tables[1..], limits[1..], page.next);
        Traversal(page.rows + rest.rows, rest.done)
  }

  predicate HasKey(rows: seq<Row>, key: Key) {
    exists i :: 0 <= i < |rows| && rows[i].key == key
  }

  lemma PageIs(table: seq<Row>, limit: int, cursor: Option<Key>)
    requires Descending(table)
    ensures var page := PageOf(table, limit, cursor);
            && Descending(page.rows)
            && (forall r :: r in page.rows ==> r in table && Under(r, cursor))
            && (page.next.Some? ==> page.rows != [] && page.next.value == page.rows[|page.rows| - 1].key)
            && (forall r :: r in table && Under(r, cursor) && r !in page.rows ==>
                page.next.Some? && Under(r, page.next))
  {
    FromIs(table, cursor);
    var below, n := From(table, cursor), Clamp(limit);
    if |below| > n {
      PrefixIs(below, n);
    }
  }

  /** A row past the first n of a descending list is not among them. */
  lemma CutOff(below: seq<Row>, n: nat, i: nat)
    requires Descending(below) && n <= i < |below|
    ensures below[i] !in below[..n]
  {
    forall k | 0 <= k < n ensures below[..n][k] != below[i] {
      assert Below(below[i].key, below[k].key);
    }
  }

  lemma PageIsMeant(table: seq<Row>, limit: int, cursor: Option<Key>)
    requires Descending(table)
    ensures PageMeans(table, limit, cursor, PageOf(table, limit, cursor))
  {
    PageIs(table, limit, cursor);
    FromIs(table, cursor);
    var below, n := From(table, cursor), Clamp(limit);
    if |below| > n {
      CutOff(below, n, n);
      assert LeftOver(table, cursor, below[..n], below[n]);
    }
  }

  /** Rows cut off a descending list are below those that stay. */
  lemma PrefixIs(below: seq<Row>, n: nat)
    requires Descending(below) && 0 < n <= |below|
    ensures Descending(below[..n]) && below[..n][n - 1] == below[n - 1]
    ensures forall r :: r in below[..n] ==> r in below
    ensures forall r :: r in below && r !in below[..n] ==> Below(r.key, below[n - 1].key)
  {
    forall r | r in below && r !in below[..n] ensures Below(r.key, below[n - 1].key) {
      assert below == below[..n] + below[n..];
      var i :| 0 <= i < |below[n..]| && below[n..][i] == r;
      assert below[n + i] == r;
    }
  }

  /** Whatever is inserted or deleted meanwhile, the rows come in strictly descending order, none twice. */
  lemma {:induction false} FollowDescends(tables: seq<seq<Row>>, limits: seq<int>, cursor: Option<Key>)
    requires |limits| == |tables| && forall i :: 0 <= i < |tables| ==> Descending(tables[i])
    ensures var t := Follow(tables, limits, cursor); Descending(t.rows) && forall r :: r in t.rows ==> Under(r, cursor)
    decreases |tables|
  {
    if tables != [] {
      var page := PageOf(tables[0], limits[0], cursor);
      PageIs(tables[0], limits[0], cursor);
      if page.next.Some? {
        var rest := Follow(tables[1..], limits[1..], page.next);
        FollowDescends(tables[1..], limits[1..], page.next);
        DescendingJoin(page.rows, rest.rows);
        var last := page.rows[|page.rows| - 1];
        assert last in page.rows;
        forall r | r in rest.rows ensures Under(r, cursor) {
          assert Below(r.key, last.key);
        }
      }
    }
  }

  lemma DescendingJoin(a: seq<Row>, b: seq<Row>)
    requires Descending(a) && Descending(b) && a != [] && forall r :: r in b ==> Below(r.key, a[|a| - 1].key)
    ensures Descending(a + b)
  {
    forall i, j | 0 <= i < |a| && 0 <= j < |b| ensures Below(b[j].key, a[i].key) {
      assert Below(b[j].key, a[|a| - 1].key);
    }
  }

  /** Every row that is there in each table the pages came from is returned. */
  lemma {:induction false} FollowComplete(tables: seq<seq<Row>>, limits: seq<int>, cursor: Option<Key>, key: Key)
    requires |limits| == |tables| && forall i :: 0 <= i < |tables| ==> Descending(tables[i]) && HasKey(tables[i], key)
    requires Follow(tables, limits, cursor).done && (cursor.Some? ==> Below(key, cursor.value))
    ensures HasKey(Follow(tables, limits, cursor).rows, key)
    decreases |tables|
  {
    var page := PageOf(tables[0], limits[0], cursor);
    PageIs(tables[0], limits[0], cursor);
    assert HasKey(tables[0], key);
    var i :| 0 <= i < |tables[0]| && tables[0][i].key == key;
    var row := tables[0][i];
    assert row in tables[0] && Under(row, cursor);
    if row in page.rows {
      var k :| 0 <= k < |page.rows| && page.rows[k] == row;
      assert Follow(tables, limits, cursor).rows[k] == row;
    } else {
      var rest := Follow(tables[1..], limits[1..], page.next);
      FollowComplete(tables[1..], limits[1..], page.next, key);
      var k :| 0 <= k < |rest.rows| && rest.rows[k].key == key;
      assert (page.rows + rest.rows)[|page.rows| + k] == rest.rows[k];
    }
  }

  /** Each returned row was in one of the tables, as returned. */
  lemma {:induction false} FollowSound(tables: seq<seq<Row>>, limits: seq<int>, cursor: Option<Key>, row: Row)
    requires |limits| == |tables| && (forall i :: 0 <= i < |tables| ==> Descending(tables[i]))
    requires row in Follow(tables, limits, cursor).rows
    ensures exists i :: 0 <= i < |tables| && row in tables[i]
    decreases |tables|
  {
    var page := PageOf(tables[0], limits[0], cursor);
    PageIs(tables[0], limits[0], cursor);
    if row !in page.rows {
      FollowSound(tables[1..], limits[1..], page.next, row);
      var i :| 0 <= i < |tables[1..]| && row in tables[1..][i];
      assert row in tables[i + 1];
    } else {
      assert row in tables[0];
    }
  }

  /** The traversal of one tenant's members from the start. */
  lemma TraversalIsExact(tables: seq<seq<Row>>, limits: seq<int>, key: Key)
    requires |limits| == |tables| && forall i :: 0 <= i < |tables| ==> Descending(tables[i])
    ensures Descending(Follow(tables, limits, None).rows)
    ensures Follow(tables, limits, None).done && (forall i :: 0 <= i < |tables| ==> HasKey(tables[i], key)) ==>
              HasKey(Follow(tables, limits, None).rows, key)
  {
    FollowDescends(tables, limits, None);
    if Follow(tables, limits, None).done && forall i :: 0 <= i < |tables| ==> HasKey(tables[i], key) {
      FollowComplete(tables, limits, None, key);
    }
  }

  // ---------------------------------------------------------------------------------------
  // A table that does not change
  // ---------------------------------------------------------------------------------------

  /** Below the key of a row of the table are exactly the rows after it. */
  lemma {:induction false} FromRow(rows: seq<Row>, k: nat)
    requires Descending(rows) && k < |rows|
    ensures From(rows, Some(rows[k].key)) == rows[k + 1..]
  {
    if k == 0 {
      if |rows| > 1 {
        assert rows[1..][0] == rows[1];
      }
    } else {
      FromRow(rows[1..], k - 1);
      assert rows[1..][k - 1] == rows[k] && rows[1..][k..] == rows[k + 1..];
    }
  }

  /** The rows below a row below a cursor. */
  lemma {:induction false} FromFrom(rows: seq<Row>, cursor: Option<Key>, k: nat)
    requires Descending(rows) && k < |From(rows, cursor)|
    ensures From(rows, Some(From(rows, cursor)[k].key)) == From(rows, cursor)[k + 1..]
  {
    if rows != [] && !Under(rows[0], cursor) {
      FromFrom(rows[1..], cursor, k);
      FromIs(rows[1..], cursor);
      assert From(rows, cursor)[k] in rows[1..];
    } else {
      FromRow(rows, k);
    }
  }

  function Repeat<T>(t: T, n: nat): (r: seq<T>)
    ensures |r| == n
  {
    if n == 0 then [] else [t] + Repeat(t, n - 1)
  }

  lemma RepeatTail<T>(t: T, n: nat)
    requires n > 0
    ensures Repeat(t, n)[0] == t && Repeat(t, n)[1..] == Repeat(t, n - 1)
  {
  }

  lemma FewerPages(rows: nat, n: nat, requests: nat)
    requires 0 < n < rows <= requests * n
    ensures requests > 1 && rows - n <= (requests - 1) * n
  {
    assert (requests - 1) * n + n == requests * n;
  }

  /** As many requests as it takes pages to hold the rows return the whole table in order. */
  lemma {:induction false} FixedTable(table: seq<Row>, limit: int, requests: nat, cursor: Option<Key>)
    requires Descending(table) && requests > 0 && |From(table, cursor)| <= requests * Clamp(limit)
    ensures Follow(Repeat(table, requests), Repeat(limit, requests), cursor) == Traversal(From(table, cursor), true)
    decreases requests
  {
    var n, below := Clamp(limit), From(table, cursor);
    if |below| > n {
      FromFrom(table, cursor, n - 1);
      FewerPages(|below|, n, requests);
      FixedTable(table, limit, requests - 1, Some(below[n - 1].key));
      RepeatTail(table, requests);
      RepeatTail(limit, requests);
      assert below == below[..n] + below[n..];
    }
  }

  // ---------------------------------------------------------------------------------------
  // The audit list
  // ---------------------------------------------------------------------------------------

  /** The cursor of the audit list names the first row that did not fit, and the next page starts below it. */
  function AuditPageOf(table: seq<Row>, limit: int, cursor: Option<Key>): Page {
    var n := Clamp(limit);
    var below := From(table, cursor);
    if |below| <= n then Page(below, None) else Page(below[..n], Some(below[n].key))
  }

  /** The same, but the cursor is the key of the first row left over. */
  ghost predicate AuditPageMeans(table: seq<Row>, limit: int, cursor: Option<Key>, page: Page) {
    && RowsMean(table, limit, cursor, page.rows)
    && (page.next.None? <==> forall r :: !LeftOver(table, cursor, page.rows, r))
    && (page.next.Some? ==>
          && |page.rows| == Size(limit)
          && (exists r :: LeftOver(table, cursor, page.rows, r) && r.key == page.next.value)
          && forall r :: LeftOver(table, cursor, page.rows, r) ==>
              r.key == page.next.value || Below(r.key, page.next.value))
  }

  lemma AuditPageIsMeant(table: seq<Row>, limit: int, cursor: Option<Key>)
    requires Descending(table)
    ensures AuditPageMeans(table, limit, cursor, AuditPageOf(table, limit, cursor))
  {
    FromIs(table, cursor);
    var below, n := From(table, cursor), Clamp(limit);
    if |below| > n {
      PrefixIs(below, n);
      CutOff(below, n, n);
      assert LeftOver(table, cursor, below[..n], below[n]);
      forall r | LeftOver(table, cursor, below[..n], r) ensures r == below[n] || Below(r.key, below[n].key) {
        var i :| 0 <= i < |below| && below[i] == r;
        PartOf(below, i, 0, n);
        assert below[0..n] == below[..n];
      }
    }
  }

  method ListAudit(table: seq<Row>, limit: int, cursor: Option<Key>) returns (page: Page)
    ensures page == AuditPageOf(table, limit, cursor)
    ensures Descending(table) ==> AuditPageMeans(table, limit, cursor, page)
  {
    if Descending(table) {
      AuditPageIsMeant(table, limit, cursor);
    }
    var n := limit;
    if n <= 0 || n > 200 {
      n := 50;
    }
    var fetched := Fetch(table, cursor, n + 1);
    var out, i := [], 0;
    while i < |fetched|
      invariant 0 <= i <= |fetched| && out == fetched[..i]
    {
      out := out + [fetched[i]];
      i := i + 1;
    }
    var next := None;
    if |out| > n {
      next := Some(out[n].key);
      out := out[..n];
    }
    return Page(out, next);
  }

  function FollowAudit(table: seq<Row>, limit: int, cursor: Option<Key>, requests: nat): Traversal
    decreases requests
  {
    if requests == 0 then Traversal([], false)
    else
      var page := AuditPageOf(table, limit, cursor);
      if page.next.None? then Traversal(page.rows, true)
      else
        var rest := FollowAudit(table, limit, page.next, requests - 1);
        Traversal(page.rows + rest.rows, rest.done)
  }

  /** Of each limit + 1 rows the last is left out. */
  function Sieved(rows: seq<Row>, n: nat): seq<Row>
    requires n > 0
    decreases |rows|
  {
    if |rows| <= n then rows else rows[..n] + Sieved(rows[n + 1..], n)
  }

  lemma {:induction false} SievedFrom(rows: seq<Row>, n: nat)
    requires n > 0
    ensures forall r :: r in Sieved(rows, n) ==> r in rows
    decreases |rows|
  {
    if |rows| > n {
      SievedFrom(rows[n + 1..], n);
    }
  }

  /** A row is in a part of the list exactly if its position is. */
  lemma PartOf(rows: seq<Row>, i: nat, lo: nat, hi: nat)
    requires Descending(rows) && i < |rows| && lo <= hi <= |rows|
    ensures rows[i] in rows[lo..hi] <==> lo <= i < hi
  {
    if lo <= i < hi {
      assert rows[lo..hi][i - lo] == rows[i];
    }
  }

  lemma AtLeastOnce(d: int, m: int)
    requires d >= 1 && m > 0
    ensures d * m >= m
  {
    assert (d - 1) * m >= 0;
  }

  lemma Multiple(d: int, m: int, x: int)
    requires 0 < m && d * m == x && -m < x < m
    ensures d == 0
  {
    assert (-d) * m == -x;
    if d >= 1 {
      AtLeastOnce(d, m);
    } else if d <= -1 {
      AtLeastOnce(-d, m);
    }
  }

  lemma Remainder(a: int, m: int, r: int)
    requires 0 <= r < m && a % m == r
    ensures (a + m) % m == r
  {
    var p, q, s := a / m, (a + m) / m, (a + m) % m;
    assert a == p * m + r && a + m == q * m + s;
    assert (q - p - 1) * m == q * m - p * m - m;
    Multiple(q - p - 1, m, r - s);
  }

  lemma Small(a: int, m: int)
    requires 0 <= a < m
    ensures a % m == a
  {
    var q := a / m;
    assert a == q * m + a % m;
    Multiple(q, m, a - a % m);
  }

  lemma Cycle(i: nat, n: nat)
    ensures i <= n ==> i % (n + 1) == i
    ensures i > n ==> i % (n + 1) == (i - (n + 1)) % (n + 1)
  {
    if i <= n {
      Small(i, n + 1);
    } else {
      Remainder(i - (n + 1), n + 1, (i - (n + 1)) % (n + 1));
    }
  }

  lemma {:induction false} SievedIs(rows: seq<Row>, n: nat, i: nat)
    requires Descending(rows) && n > 0 && i < |rows|
    ensures rows[i] in Sieved(rows, n) <==> i % (n + 1) != n
    decreases |rows|
  {
    Cycle(i, n);
    if |rows| > n {
      var rest := rows[n + 1..];
      PartOf(rows, i, 0, n);
      PartOf(rows, i, n + 1, |rows|);
      SievedFrom(rest, n);
      if i > n {
        SievedIs(rest, n, i - (n + 1));
        assert rest[i - (n + 1)] == rows[i];
      }
    }
  }

  /** On a fixed table the audit list returns all rows but those at positions limit modulo limit + 1. */
  lemma {:induction false} AuditSkips(table: seq<Row>, limit: int, cursor: Option<Key>, requests: nat)
    requires Descending(table) && requests > |From(table, cursor)|
    ensures FollowAudit(table, limit, cursor, requests) == Traversal(Sieved(From(table, cursor), Clamp(limit)), true)
    decreases requests
  {
    var n, below := Clamp(limit), From(table, cursor);
    if |below| > n {
      FromFrom(table, cursor, n);
      AuditSkips(table, limit, Some(below[n].key), requests - 1);
    }
  }

  /** So a row is listed exactly if its position is not limit modulo limit + 1. */
  lemma AuditListed(table: seq<Row>, limit: int, requests: nat, i: nat)
    requires Descending(table) && requests > |table| && i < |table|
    ensures FollowAudit(table, limit, None, requests).done
    ensures table[i] in FollowAudit(table, limit, None, requests).rows <==> i % (Clamp(limit) + 1) != Clamp(limit)
  {
    assert From(table, None) == table;
    AuditSkips(table, limit, None, requests);
    SievedIs(table, Clamp(limit), i);
  }
}
