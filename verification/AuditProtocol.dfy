/** Record in concurrent transactions, and what Verify makes of the rows they commit. */
module AuditProtocol {
  import opened Wrappers
  import opened Json
  import opened JsonOrder
  import opened AuditChain

  datatype Event = Event(
    tenant: Option<Uuid>,
    actor: Option<Uuid>,
    actorType: string,
    action: string,
    resourceType: string,
    resource: Option<Uuid>,
    ip: string,
    userAgent: string,
    requestId: string,
    metadata: Option<seq<Field>>)

  /** A map of metadata has each key once, at every depth. */
  predicate IsMap(m: Option<seq<Field>>) {
    m.Some? ==> DistinctDeep(JObject(m.value))
  }

  /** A stored row, and the address and the metadata it was hashed with. */
  datatype Rec = Rec(row: Row, sentIp: string, sentMetadata: Json)

  // ---------------------------------------------------------------------------------------
  // The two queries over one chain
  // ---------------------------------------------------------------------------------------

  /** The order of both queries: created_at, then id. */
  predicate Earlier(a: Row, b: Row) {
    a.createdAt < b.createdAt || (a.createdAt == b.createdAt && Before(a.id, b.id))
  }

  lemma EarlierTotal(a: Row, b: Row)
    ensures a.id != b.id ==> Earlier(a, b) || Earlier(b, a)
    ensures !(Earlier(a, b) && Earlier(b, a)) && !Earlier(a, a)
  {
    BeforeTotal(a.id, b.id);
    BeforeTotal(a.id, a.id);
  }

  lemma EarlierTransitive(a: Row, b: Row, c: Row)
    requires Earlier(a, b) && Earlier(b, c)
    ensures Earlier(a, c)
  {
    if a.createdAt == b.createdAt == c.createdAt {
      BeforeTransitive(a.id, b.id, c.id);
    }
  }

  /** ORDER BY created_at DESC, id DESC LIMIT 1. */
  function Newest(rows: seq<Row>): (k: nat)
    requires rows != []
    ensures k < |rows|
  {
    if |rows| == 1 then 0
    else
      var k := Newest(rows[..|rows| - 1]);
      if Earlier(rows[k], rows[|rows| - 1]) then |rows| - 1 else k
  }

  /** GetAuditChainTip as Record uses it: the newest row's hash, or the seed when there is none. */
  function ChainTip(rows: seq<Row>): string {
    if rows == [] then SEED else rows[Newest(rows)].rowHash
  }

  lemma {:induction false} NewestIs(rows: seq<Row>, i: nat)
    requires i < |rows| && DistinctIds(rows)
    ensures i != Newest(rows) ==> Earlier(rows[i], rows[Newest(rows)])
  {
    var n := |rows| - 1;
    if n > 0 {
      var init := rows[..n];
      var k := Newest(init);
      EarlierTotal(rows[k], rows[n]);
      if i < n {
        NewestIs(init, i);
        if i != k && Earlier(rows[k], rows[n]) {
          EarlierTransitive(rows[i], rows[k], rows[n]);
        }
      }
    }
  }

  function InsertRow(r: Row, rows: seq<Row>): seq<Row> {
    if rows == [] || Earlier(r, rows[0]) then [r] + rows else [rows[0]] + InsertRow(r, rows[1..])
  }

  /** ListAuditEventsForVerify: ORDER BY created_at, id. */
  function Listing(rows: seq<Row>): seq<Row> {
    if rows == [] then [] else InsertRow(rows[|rows| - 1], Listing(rows[..|rows| - 1]))
  }

  predicate InOrder(rows: seq<Row>) {
    forall i, j :: 0 <= i < j < |rows| ==> Earlier(rows[i], rows[j])
  }

  lemma ConsInOrder(r: Row, rows: seq<Row>)
    requires InOrder(rows) && forall x :: x in rows ==> Earlier(r, x)
    ensures InOrder([r] + rows)
  {
  }

  lemma {:induction false} InsertRowIs(r: Row, rows: seq<Row>)
    requires InOrder(rows) && forall x :: x in rows ==> x.id != r.id
    ensures InOrder(InsertRow(r, rows)) && |InsertRow(r, rows)| == |rows| + 1
    ensures forall x :: x in InsertRow(r, rows) <==> x == r || x in rows
  {
    if rows != [] {
      assert rows[0] in rows;
      EarlierTotal(r, rows[0]);
      if Earlier(r, rows[0]) {
        forall i | 0 < i < |rows| ensures Earlier(r, rows[i]) {
          EarlierTransitive(r, rows[0], rows[i]);
        }
      } else {
        InsertRowIs(r, rows[1..]);
        assert rows == [rows[0]] + rows[1..];
        ConsInOrder(rows[0], InsertRow(r, rows[1..]));
      }
    }
  }

  lemma {:induction false} ListingIs(rows: seq<Row>)
    requires DistinctIds(rows)
    ensures InOrder(Listing(rows)) && |Listing(rows)| == |rows|
    ensures forall x :: x in Listing(rows) <==> x in rows
  {
    if rows != [] {
      var init, last := rows[..|rows| - 1], rows[|rows| - 1];
      ListingIs(init);
      forall x | x in Listing(init) ensures x.id != last.id {
        assert x in init;
      }
      InsertRowIs(last, Listing(init));
      assert rows == init + [last];
    }
  }

  lemma {:induction false} InsertLast(r: Row, rows: seq<Row>)
    requires forall x :: x in rows ==> !Earlier(r, x)
    ensures InsertRow(r, rows) == rows + [r]
  {
    if rows != [] {
      assert rows[0] in rows;
      InsertLast(r, rows[1..]);
      assert rows == [rows[0]] + rows[1..];
    }
  }

  lemma {:induction false} ListingInOrder(rows: seq<Row>)
    requires InOrder(rows)
    ensures Listing(rows) == rows
  {
    if rows != [] {
      var n := |rows| - 1;
      ListingInOrder(rows[..n]);
      forall i | 0 <= i < n ensures !Earlier(rows[n], rows[i]) {
        EarlierTotal(rows[i], rows[n]);
      }
      InsertLast(rows[n], rows[..n]);
      assert rows == rows[..n] + [rows[n]];
    }
  }

  // ---------------------------------------------------------------------------------------
  // What Record builds, in insertion order
  // ---------------------------------------------------------------------------------------

  function RowsOf(recs: seq<Rec>): (rows: seq<Row>)
    ensures |rows| == |recs| && forall i :: 0 <= i < |recs| ==> rows[i] == recs[i].row
  {
    seq(|recs|, i requires 0 <= i < |recs| => recs[i].row)
  }

  /** What Record hashed for a row. */
  function Sent(env: Env, rec: Rec): Content {
    ContentOf(env, rec.row, rec.sentIp, rec.sentMetadata)
  }

  /** The hash Record stored; the column has the metadata that was hashed, but its numbers are printed anew. */
  predicate HashedAsSent(env: Env, rec: Rec) {
    && rec.row.rowHash == env.hash(Text(Sent(env, rec)))
    && NormaliseMetadata(env, rec.row.metadata) == Ok(Reread(env.number, rec.sentMetadata))
  }

  predicate ExtendsAt(env: Env, recs: seq<Rec>, i: nat)
    requires i < |recs|
  {
    HashedAsSent(env, recs[i]) && recs[i].row.prevHash == ChainTip(RowsOf(recs[..i]))
  }

  /** Every row was hashed, and linked to the newest of the rows before it. */
  ghost predicate Chain(env: Env, recs: seq<Rec>) {
    DistinctIds(RowsOf(recs)) && forall i :: 0 <= i < |recs| ==> ExtendsAt(env, recs, i)
  }

  lemma ChainSnoc(env: Env, recs: seq<Rec>, rec: Rec)
    requires Chain(env, recs) && HashedAsSent(env, rec) && rec.row.prevHash == ChainTip(RowsOf(recs))
    requires forall i :: 0 <= i < |recs| ==> recs[i].row.id != rec.row.id
    ensures Chain(env, recs + [rec])
  {
    var all := recs + [rec];
    forall i | 0 <= i < |all| ensures ExtendsAt(env, all, i) {
      if i < |recs| {
        assert ExtendsAt(env, recs, i) && all[..i] == recs[..i];
      } else {
        assert all[..i] == recs;
      }
    }
  }

  lemma ChainPrefix(env: Env, recs: seq<Rec>, n: nat)
    requires Chain(env, recs) && n <= |recs|
    ensures Chain(env, recs[..n])
  {
    forall i | 0 <= i < n ensures ExtendsAt(env, recs[..n], i) {
      assert ExtendsAt(env, recs, i) && recs[..n][..i] == recs[..i];
    }
    forall i, j | 0 <= i < j < n ensures RowsOf(recs[..n])[i].id != RowsOf(recs[..n])[j].id {
      assert RowsOf(recs)[i].id != RowsOf(recs)[j].id;
    }
  }

  // ---------------------------------------------------------------------------------------
  // When the verifier accepts such a chain
  // ---------------------------------------------------------------------------------------

  /** The columns give back the address and the numbers that were hashed. */
  predicate SentAsStored(env: Env, recs: seq<Rec>) {
    forall i :: 0 <= i < |recs| ==>
      recs[i].sentIp == recs[i].row.ip && NumbersKept(env.number, recs[i].sentMetadata)
  }

  /** That is when the verifier hashes what Record hashed. */
  lemma SeenAsSent(env: Env, rec: Rec)
    requires HashedAsSent(env, rec)
    ensures Readable(rec.row)
    ensures Seen(env, rec.row) == Sent(env, rec) <==>
            rec.sentIp == rec.row.ip && NumbersKept(env.number, rec.sentMetadata)
  {
    RereadIsKept(env.number, rec.sentMetadata);
  }

  lemma NewestOfOrdered(rows: seq<Row>)
    requires rows != [] && InOrder(rows)
    ensures Newest(rows) == |rows| - 1
  {
    if |rows| > 1 {
      NewestOfOrdered(rows[..|rows| - 1]);
    }
  }

  /** Rows inserted in the order of (created_at, id), their addresses and numbers unchanged by the store, verify. */
  lemma OrderedChainVerifies(env: Env, recs: seq<Rec>)
    requires Chain(env, recs) && InOrder(RowsOf(recs)) && SentAsStored(env, recs)
    ensures Listing(RowsOf(recs)) == RowsOf(recs) && Verified(env, RowsOf(recs))
  {
    var rows := RowsOf(recs);
    ListingInOrder(rows);
    forall i | 0 <= i < |rows| ensures ValidAt(env, rows, i) {
      assert ExtendsAt(env, recs, i) && RowsOf(recs[..i]) == rows[..i];
      SeenAsSent(env, recs[i]);
      if i > 0 {
        NewestOfOrdered(rows[..i]);
      }
    }
  }

  /** The evidence is made of contents Record hashed or Verify would hash for these rows. */
  ghost predicate FromRecs(env: Env, e: Evidence, recs: seq<Rec>) {
    match e
    case Holds => true
    case Collision(x, y) => Hashed(env, x, recs) && Hashed(env, y, recs)
    case SeedPreimage(x) => Hashed(env, x, recs)
  }

  predicate HashedFor(env: Env, rec: Rec, x: Content) {
    x == Sent(env, rec) || (Readable(rec.row) && x == Seen(env, rec.row))
  }

  predicate Hashed(env: Env, x: Content, recs: seq<Rec>) {
    exists i :: 0 <= i < |recs| && HashedFor(env, recs[i], x)
  }

  /** Two rows of a chain with one hash are one row. */
  lemma SameRow(env: Env, recs: seq<Rec>, i: nat, k: nat) returns (e: Evidence)
    requires Chain(env, recs) && i < |recs| && k < |recs| && recs[i].row.rowHash == recs[k].row.rowHash
    ensures e.Holds? ==> i == k
    ensures !e.Holds? ==> Breaks(env, e) && FromRecs(env, e, recs)
  {
    if i == k {
      e := Holds;
    } else {
      assert ExtendsAt(env, recs, i) && ExtendsAt(env, recs, k);
      e := SameHash(env, Sent(env, recs[i]), Sent(env, recs[k]));
      assert RowsOf(recs)[i].id != RowsOf(recs)[k].id;
      assert HashedFor(env, recs[i], Sent(env, recs[i]));
      assert HashedFor(env, recs[k], Sent(env, recs[k]));
    }
  }

  /** A row that follows nothing but has a row before it in its chain exposes a content hashing to the seed. */
  lemma SeedHash(env: Env, recs: seq<Rec>, i: nat) returns (e: Evidence)
    requires Chain(env, recs) && i < |recs| && recs[i].row.rowHash == SEED
    ensures e.SeedPreimage? && Breaks(env, e) && FromRecs(env, e, recs)
  {
    assert ExtendsAt(env, recs, i);
    e := SeedPreimage(Sent(env, recs[i]));
    assert HashedFor(env, recs[i], Sent(env, recs[i]));
  }

  /** If the listing verifies as far as row n, it agrees with insertion order as far as row n. */
  lemma {:induction false} VerifiedIsOrdered(env: Env, recs: seq<Rec>, n: nat) returns (e: Evidence)
    requires Chain(env, recs) && n <= |recs|
    requires Verified(env, Listing(RowsOf(recs)))
    ensures |Listing(RowsOf(recs))| == |recs|
    ensures e.Holds? ==> Listing(RowsOf(recs))[..n] == RowsOf(recs)[..n]
    ensures !e.Holds? ==> Breaks(env, e) && FromRecs(env, e, recs)
    decreases n
  {
    var rows := RowsOf(recs);
    var list := Listing(rows);
    ListingIs(rows);
    if n == 0 {
      e := Holds;
    } else {
      e := VerifiedIsOrdered(env, recs, n - 1);
      if e.Holds? {
        assert ValidAt(env, list, n - 1);
        e := NextInOrder(env, recs, list, n - 1);
        if e.Holds? {
          assert list[..n] == list[..n - 1] + [list[n - 1]] && rows[..n] == rows[..n - 1] + [rows[n - 1]];
        }
      }
    }
  }

  lemma AtLeast(rows: seq<Row>, list: seq<Row>, n: nat, k: nat)
    requires DistinctIds(rows) && InOrder(list) && n < |list| && n <= |rows| && list[..n] == rows[..n]
    requires k < |rows| && rows[k] == list[n]
    ensures n <= k
  {
    if k < n {
      assert list[k] == list[..n][k] == rows[..n][k];
      EarlierTotal(list[k], list[n]);
    }
  }

  /** A listing that verifies and agrees with insertion order so far agrees in one row more. */
  lemma NextInOrder(env: Env, recs: seq<Rec>, list: seq<Row>, n: nat) returns (e: Evidence)
    requires Chain(env, recs) && n < |recs|
    requires var rows := RowsOf(recs);
             && InOrder(list) && |list| == |rows| && (forall x :: x in rows <==> x in list)
             && list[..n] == rows[..n] && list[n].prevHash == Tip(list[..n])
    ensures e.Holds? ==> list[n] == recs[n].row
    ensures !e.Holds? ==> Breaks(env, e) && FromRecs(env, e, recs)
  {
    var rows := RowsOf(recs);
    assert list[n] in rows;
    var k :| 0 <= k < |rows| && rows[k] == list[n];
    AtLeast(rows, list, n, k);
    if k == n {
      e := Holds;
    } else {
      e := Misplaced(env, recs, list, n, k);
    }
  }

  /** A row that is not the first carries the hash of the newest before it. */
  lemma FollowsNewest(env: Env, recs: seq<Rec>, k: nat) returns (m: nat)
    requires Chain(env, recs) && 0 < k < |recs|
    ensures m < k && m == Newest(RowsOf(recs)[..k]) && RowsOf(recs)[k].prevHash == recs[m].row.rowHash
  {
    assert ExtendsAt(env, recs, k) && RowsOf(recs[..k]) == RowsOf(recs)[..k];
    m := Newest(RowsOf(recs)[..k]);
  }

  /** A row listed before its turn exposes the hash function. */
  lemma Misplaced(env: Env, recs: seq<Rec>, list: seq<Row>, n: nat, k: nat) returns (e: Evidence)
    requires Chain(env, recs) && n < k < |recs|
    requires var rows := RowsOf(recs);
             && InOrder(list) && |list| == |rows| && rows[n] in list
             && list[..n] == rows[..n] && list[n] == rows[k] && rows[k].prevHash == Tip(list[..n])
    ensures Breaks(env, e) && FromRecs(env, e, recs)
  {
    var m := FollowsNewest(env, recs, k);
    if n == 0 {
      e := SeedHash(env, recs, m);
    } else {
      PastThePrefix(RowsOf(recs), list, n, k);
      assert list[..n][n - 1] == RowsOf(recs)[..n][n - 1];
      e := SameRow(env, recs, m, n - 1);
    }
  }

  /** The row before row k is the newest of those before it, so not the last of a shorter listed prefix. */
  lemma PastThePrefix(rows: seq<Row>, list: seq<Row>, n: nat, k: nat)
    requires DistinctIds(rows) && InOrder(list) && 0 < n < k < |rows| && n <= |list| && list[..n] == rows[..n] &&
             rows[n] in list
    ensures Newest(rows[..k]) != n - 1
  {
    NewestIs(rows[..k], n);
    NotEarlier(rows, list, n);
  }

  /** A row past a listed prefix is not earlier than the last row of the prefix. */
  lemma NotEarlier(rows: seq<Row>, list: seq<Row>, n: nat)
    requires DistinctIds(rows) && InOrder(list) && 0 < n < |rows| && n <= |list| && list[..n] == rows[..n] &&
             rows[n] in list
    ensures !Earlier(rows[n], rows[n - 1])
  {
    forall j | 0 <= j < n ensures list[j] == rows[j] && list[j] != rows[n] {
      assert list[..n][j] == rows[..n][j] && rows[j].id != rows[n].id;
    }
    var j :| 0 <= j < |list| && list[j] == rows[n];
    EarlierTotal(list[n - 1], list[j]);
  }

  lemma StoredAsSent(env: Env, recs: seq<Rec>, n: nat) returns (e: Evidence)
    requires Chain(env, recs) && Verified(env, RowsOf(recs)) && n <= |recs|
    ensures e.Holds? ==> SentAsStored(env, recs[..n])
    ensures !e.Holds? ==> Breaks(env, e) && FromRecs(env, e, recs)
  {
    e := Holds;
    if n > 0 {
      e := StoredAsSent(env, recs, n - 1);
      if e.Holds? {
        var rec := recs[n - 1];
        assert ExtendsAt(env, recs, n - 1) && ValidAt(env, RowsOf(recs), n - 1);
        SeenAsSent(env, rec);
        e := SameHash(env, Sent(env, rec), Seen(env, rec.row));
        assert HashedFor(env, rec, Sent(env, rec)) && HashedFor(env, rec, Seen(env, rec.row));
        if e.Holds? {
          assert recs[..n] == recs[..n - 1] + [rec];
        }
      }
    }
  }

  /** The converse of OrderedChainVerifies, or the hash function is broken on these rows. */
  lemma VerifiedChainIsOrdered(env: Env, recs: seq<Rec>) returns (e: Evidence)
    requires Chain(env, recs) && Verified(env, Listing(RowsOf(recs)))
    ensures e.Holds? ==> InOrder(RowsOf(recs)) && SentAsStored(env, recs)
    ensures !e.Holds? ==> Breaks(env, e) && FromRecs(env, e, recs)
  {
    var rows := RowsOf(recs);
    e := VerifiedIsOrdered(env, recs, |recs|);
    if e.Holds? {
      ListingIs(rows);
      assert Listing(rows)[..|recs|] == Listing(rows) && rows[..|recs|] == rows;
      e := StoredAsSent(env, recs, |recs|);
      assert recs[..|recs|] == recs;
    }
  }
}
