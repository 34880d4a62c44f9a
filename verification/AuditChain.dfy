/** The audit log as a hash chain: rows, the text hashed for a row, the verifier, tamper evidence. */
module AuditChain {
  import opened Wrappers
  import opened Json
  import opened JsonOrder

  function Zeros(n: nat): (s: string)
    ensures |s| == n && forall i :: 0 <= i < n ==> s[i] == '0'
  {
    if n == 0 then "" else Zeros(n - 1) + "0"
  }

  /** What the first row of a chain links to. */
  const SEED: string := Zeros(64)

  type Uuid = u: string | u != "" witness "0"

  /**
   * What the log leaves to others: SHA-256 in hex, the printed form of a time, the host() of a text
   * cast to inet (or a failed cast), the 64-bit advisory lock key of a chain's name, and how a number
   * is printed after a JSONB column and a float64 have held it.
   */
  datatype Env = Env(
    hash: string -> string,
    show: int -> string,
    inet: string -> Option<string>,
    lockKey: Option<Uuid> -> int,
    number: Number -> Number)

  /** A row as ListAuditEventsForVerify returns it, its hashes trimmed. */
  datatype Row = Row(
    id: Uuid,
    tenant: Option<Uuid>,
    actor: Option<Uuid>,
    actorType: string,
    action: string,
    resourceType: string,
    resource: Option<Uuid>,
    ip: string,
    userAgent: string,
    requestId: string,
    metadata: Option<Json>,
    createdAt: int,
    prevHash: string,
    rowHash: string)

  // ---------------------------------------------------------------------------------------
  // The text that is hashed
  // ---------------------------------------------------------------------------------------

  /** The record hashed for a row: canonicalRow in the source. */
  datatype Content = Content(
    id: string,
    tenant: string,
    actor: string,
    actorType: string,
    action: string,
    resourceType: string,
    resource: string,
    ip: string,
    userAgent: string,
    requestId: string,
    metadata: Json,
    createdAt: string,
    prevHash: string)

  function UuidText(u: Option<Uuid>): string {
    if u.None? then "" else u.value
  }

  function Fields(c: Content): seq<Field> {
    [ Field("id", JString(c.id)), Field("tenant_id", JString(c.tenant)), Field("actor_user_id", JString(c.actor)),
      Field("actor_type", JString(c.actorType)), Field("action", JString(c.action)),
      Field("resource_type", JString(c.resourceType)), Field("resource_id", JString(c.resource)),
      Field("ip", JString(c.ip)), Field("user_agent", JString(c.userAgent)),
      Field("request_id", JString(c.requestId)), Field("metadata", c.metadata),
      Field("created_at", JString(c.createdAt)), Field("prev_hash", JString(c.prevHash)) ]
  }

  function Text(c: Content): string {
    Print(JObject(Fields(c)))
  }

  lemma FieldsInjective(a: Content, b: Content)
    requires Fields(a) == Fields(b)
    ensures a == b
  {
    var fa, fb := Fields(a), Fields(b);
    assert fa[0] == fb[0] && fa[1] == fb[1] && fa[2] == fb[2] && fa[3] == fb[3] && fa[4] == fb[4];
    assert fa[5] == fb[5] && fa[6] == fb[6] && fa[7] == fb[7] && fa[8] == fb[8] && fa[9] == fb[9];
    assert fa[10] == fb[10] && fa[11] == fb[11] && fa[12] == fb[12];
  }

  /** No two contents have the same text, whatever characters their fields hold. */
  lemma TextInjective(a: Content, b: Content)
    requires Text(a) == Text(b)
    ensures a == b
  {
    PrintInjective(JObject(Fields(a)), JObject(Fields(b)));
    FieldsInjective(a, b);
  }

  // ---------------------------------------------------------------------------------------
  // Metadata
  // ---------------------------------------------------------------------------------------

  const EMPTY_OBJECT: Json := JObject([])

  /** What Record hashes and stores for an event's map of metadata, possibly nil. */
  function RecordedMetadata(m: Option<seq<Field>>): Json {
    if m.None? then EMPTY_OBJECT else Canon(JObject(m.value))
  }

  /** What the verifier makes of the stored metadata; only an object or nothing is accepted. */
  function NormaliseMetadata(env: Env, raw: Option<Json>): Result<Json, string> {
    if raw.None? || raw.value.JNull? then Ok(EMPTY_OBJECT)
    else if raw.value.JObject? then Ok(Canon(Reread(env.number, raw.value)))
    else Err("cannot unmarshal into a map")
  }

  /**
   * However the store orders the keys of objects, at every depth, the hashed metadata comes back but for
   * its numbers, and so exactly if each of them is printed as before.
   */
  lemma NormaliseRecovers(env: Env, m: Option<seq<Field>>, stored: Json)
    requires m.Some? ==> DistinctDeep(JObject(m.value))
    requires Permuted(RecordedMetadata(m), stored)
    ensures NormaliseMetadata(env, Some(stored)) == Ok(Reread(env.number, RecordedMetadata(m)))
    ensures NormaliseMetadata(env, Some(stored)) == Ok(RecordedMetadata(m)) <==>
            NumbersKept(env.number, RecordedMetadata(m))
  {
    RereadPermuted(env.number, RecordedMetadata(m), stored);
    CanonOfPermuted(Reread(env.number, RecordedMetadata(m)), Reread(env.number, stored));
    RereadCanon(env.number, RecordedMetadata(m));
    RereadIsKept(env.number, RecordedMetadata(m));
    if m.Some? {
      CanonIsSorted(JObject(m.value));
      CanonOfPermuted(JObject(m.value), Canon(JObject(m.value)));
    }
  }

  function ContentOf(env: Env, row: Row, ip: string, metadata: Json): Content {
    Content(row.id, UuidText(row.tenant), UuidText(row.actor), row.actorType, row.action, row.resourceType,
            UuidText(row.resource), ip, row.userAgent, row.requestId, metadata, env.show(row.createdAt), row.prevHash)
  }

  // ---------------------------------------------------------------------------------------
  // Verify
  // ---------------------------------------------------------------------------------------

  /** The hash the next row must carry. */
  function Tip(rows: seq<Row>): string {
    if rows == [] then SEED else rows[|rows| - 1].rowHash
  }

  predicate Readable(row: Row) {
    row.metadata.None? || row.metadata.value.JNull? || row.metadata.value.JObject?
  }

  /** What the verifier hashes for a row. */
  function Seen(env: Env, row: Row): Content
    requires Readable(row)
  {
    ContentOf(env, row, row.ip, NormaliseMetadata(env, row.metadata).value)
  }

  predicate Linked(rows: seq<Row>, i: nat)
    requires i < |rows|
  {
    rows[i].prevHash == Tip(rows[..i])
  }

  predicate HashHolds(env: Env, row: Row) {
    Readable(row) && env.hash(Text(Seen(env, row))) == row.rowHash
  }

  predicate ValidAt(env: Env, rows: seq<Row>, i: nat)
    requires i < |rows|
  {
    Linked(rows, i) && HashHolds(env, rows[i])
  }

  ghost predicate Verified(env: Env, rows: seq<Row>) {
    forall i :: 0 <= i < |rows| ==> ValidAt(env, rows, i)
  }

  const LINK_BROKEN: string := "prev_hash does not match preceding row_hash"
  const HASH_BROKEN: string := "row_hash does not match recomputed hash"

  datatype Verdict = Verdict(
    ok: bool, rowsChecked: nat, lastVerified: Option<Uuid>, brokenAt: Option<Uuid>, reason: string)

  function Reason(rows: seq<Row>, k: nat): string
    requires k < |rows|
  {
    if Linked(rows, k) then HASH_BROKEN else LINK_BROKEN
  }

  function LastOf(rows: seq<Row>, n: nat): Option<Uuid>
    requires n <= |rows|
  {
    if n == 0 then None else Some(rows[n - 1].id)
  }

  /** The last row checked, the row that is broken, and whether its link or its hash is. */
  predicate VerdictMeans(rows: seq<Row>, v: Verdict) {
    && v.rowsChecked <= |rows|
    && v.lastVerified == (if v.rowsChecked == 0 then None else Some(rows[v.rowsChecked - 1].id))
    && (v.ok ==> v.rowsChecked == |rows| && v.brokenAt == None && v.reason == "")
    && (!v.ok ==>
          && v.rowsChecked < |rows| && v.brokenAt == Some(rows[v.rowsChecked].id)
          && v.reason == if rows[v.rowsChecked].prevHash !=
                            (if v.rowsChecked == 0 then Zeros(64) else rows[v.rowsChecked - 1].rowHash)
                         then "prev_hash does not match preceding row_hash"
                         else "row_hash does not match recomputed hash")
  }

  lemma VerdictIs(rows: seq<Row>, v: Verdict)
    requires v.ok ==> v == Verdict(true, |rows|, LastOf(rows, |rows|), None, "")
    requires !v.ok ==>
               var k := v.rowsChecked;
               k < |rows| && v == Verdict(false, k, LastOf(rows, k), Some(rows[k].id), Reason(rows, k))
    ensures VerdictMeans(rows, v)
  {
  }

  /** The verifier gets as far as row k and cannot read its metadata. */
  ghost predicate UnreadableAt(env: Env, rows: seq<Row>, k: nat) {
    k < |rows| && Linked(rows, k) && !Readable(rows[k]) && forall i :: 0 <= i < k ==> ValidAt(env, rows, i)
  }

  /** All rows before k are read, and there is no row k, or it is not valid but for another reason. */
  lemma StopsReadably(env: Env, rows: seq<Row>, k: nat)
    requires k <= |rows| && forall i :: 0 <= i < k ==> ValidAt(env, rows, i)
    requires k < |rows| ==> !ValidAt(env, rows, k) && (Linked(rows, k) ==> Readable(rows[k]))
    ensures forall j: nat :: !UnreadableAt(env, rows, j)
  {
    forall j: nat ensures !UnreadableAt(env, rows, j) {
      assert j < k ==> ValidAt(env, rows, j);
    }
  }

  /**
   * OK exactly when every row is valid, and an error exactly when the metadata it gets to cannot be read;
   * otherwise the first row that is not valid, and why.
   */
  method Verify(env: Env, rows: seq<Row>) returns (r: Result<Verdict, string>)
    ensures r.Ok? && r.value.ok <==> Verified(env, rows)
    ensures r.Ok? && r.value.ok ==> r.value == Verdict(true, |rows|, LastOf(rows, |rows|), None, "")
    ensures r.Ok? && !r.value.ok ==>
      var k := r.value.rowsChecked;
      && k < |rows| && !ValidAt(env, rows, k) && (forall i :: 0 <= i < k ==> ValidAt(env, rows, i))
      && r.value == Verdict(false, k, LastOf(rows, k), Some(rows[k].id), Reason(rows, k))
    ensures r.Err? <==> exists k :: UnreadableAt(env, rows, k)
    ensures r.Ok? ==> VerdictMeans(rows, r.value)
  {
    r := VerifyLoop(env, rows);
    if r.Ok? {
      VerdictIs(rows, r.value);
    }
  }

  /** Its loop over the rows. */
  method VerifyLoop(env: Env, rows: seq<Row>) returns (r: Result<Verdict, string>)
    ensures r.Ok? && r.value.ok <==> Verified(env, rows)
    ensures r.Ok? && r.value.ok ==> r.value == Verdict(true, |rows|, LastOf(rows, |rows|), None, "")
    ensures r.Ok? && !r.value.ok ==>
      var k := r.value.rowsChecked;
      && k < |rows| && !ValidAt(env, rows, k) && (forall i :: 0 <= i < k ==> ValidAt(env, rows, i))
      && r.value == Verdict(false, k, LastOf(rows, k), Some(rows[k].id), Reason(rows, k))
    ensures r.Err? <==> exists k :: UnreadableAt(env, rows, k)
  {
    var expectedPrev, rowsChecked := SEED, 0;
    var last: Option<Uuid> := None;
    while rowsChecked < |rows|
      invariant 0 <= rowsChecked <= |rows|
      invariant expectedPrev == Tip(rows[..rowsChecked]) && last == LastOf(rows, rowsChecked)
      invariant forall i :: 0 <= i < rowsChecked ==> ValidAt(env, rows, i)
    {
      var row := rows[rowsChecked];
      if row.prevHash != expectedPrev {
        StopsReadably(env, rows, rowsChecked);
        return Ok(Verdict(false, rowsChecked, last, Some(row.id), LINK_BROKEN));
      }
      var metadata := NormaliseMetadata(env, row.metadata);
      if metadata.Err? {
        assert UnreadableAt(env, rows, rowsChecked) && !ValidAt(env, rows, rowsChecked);
        return Err(metadata.error);
      }
      if env.hash(Text(ContentOf(env, row, row.ip, metadata.value))) != row.rowHash {
        StopsReadably(env, rows, rowsChecked);
        return Ok(Verdict(false, rowsChecked, last, Some(row.id), HASH_BROKEN));
      }
      assert ValidAt(env, rows, rowsChecked);
      expectedPrev := row.rowHash;
      last := Some(row.id);
      assert Tip(rows[..rowsChecked + 1]) == row.rowHash;
      rowsChecked := rowsChecked + 1;
    }
    StopsReadably(env, rows, rowsChecked);
    return Ok(Verdict(true, rowsChecked, last, None, ""));
  }

  // ---------------------------------------------------------------------------------------
  // Tamper evidence
  // ---------------------------------------------------------------------------------------

  /** What a proof about hashes may hand over instead of its claim. */
  datatype Evidence = Holds | Collision(x: Content, y: Content) | SeedPreimage(x: Content)

  /** Two different contents with one hash, or a content whose hash is the seed. */
  predicate Breaks(env: Env, e: Evidence) {
    match e
    case Holds => false
    case Collision(x, y) => x != y && Text(x) != Text(y) && env.hash(Text(x)) == env.hash(Text(y))
    case SeedPreimage(x) => env.hash(Text(x)) == SEED
  }

  lemma SameHash(env: Env, a: Content, b: Content) returns (e: Evidence)
    requires env.hash(Text(a)) == env.hash(Text(b))
    ensures e.Holds? ==> a == b
    ensures !e.Holds? ==> e == Collision(a, b) && Breaks(env, e)
  {
    e := if a == b then Holds else Collision(a, b);
    if a != b && Text(a) == Text(b) {
      TextInjective(a, b);
    }
  }

  /** The evidence is made of contents of the two lists. */
  predicate From(env: Env, e: Evidence, a: seq<Row>, b: seq<Row>) {
    match e
    case Holds => true
    case Collision(x, y) => InRows(env, x, a) && InRows(env, y, b)
    case SeedPreimage(x) => InRows(env, x, a) || InRows(env, x, b)
  }

  predicate InRows(env: Env, x: Content, rows: seq<Row>) {
    exists i :: 0 <= i < |rows| && Readable(rows[i]) && Seen(env, rows[i]) == x
  }

  /** The lists agree on everything that is hashed. */
  ghost predicate Agree(env: Env, a: seq<Row>, b: seq<Row>) {
    && |a| == |b|
    && forall i :: 0 <= i < |a| ==>
         Readable(a[i]) && Readable(b[i]) && Seen(env, a[i]) == Seen(env, b[i]) && a[i].rowHash == b[i].rowHash
  }

  lemma VerifiedInit(env: Env, rows: seq<Row>)
    requires Verified(env, rows) && rows != []
    ensures Verified(env, rows[..|rows| - 1])
    ensures var last := rows[|rows| - 1];
            HashHolds(env, last) && last.prevHash == Tip(rows[..|rows| - 1])
  {
    var init := rows[..|rows| - 1];
    assert ValidAt(env, rows, |rows| - 1);
    forall i | 0 <= i < |init| ensures ValidAt(env, init, i) {
      assert ValidAt(env, rows, i) && init[..i] == rows[..i];
    }
  }

  lemma InRowsInit(env: Env, e: Evidence, a: seq<Row>, b: seq<Row>, c: seq<Row>, d: seq<Row>)
    requires From(env, e, a, b) && a <= c && b <= d
    ensures From(env, e, c, d)
  {
  }

  /** Lists that verify and end in one hash agree throughout, or the hash function is broken on their rows. */
  lemma {:induction false} TamperEvident(env: Env, a: seq<Row>, b: seq<Row>) returns (e: Evidence)
    requires Verified(env, a) && Verified(env, b) && Tip(a) == Tip(b)
    ensures e.Holds? ==> Agree(env, a, b)
    ensures !e.Holds? ==> Breaks(env, e) && From(env, e, a, b)
    decreases |a|
  {
    if a == [] && b == [] {
      e := Holds;
    } else if a == [] || b == [] {
      var rows := a + b;
      assert rows == a || rows == b;
      VerifiedInit(env, rows);
      e := SeedPreimage(Seen(env, rows[|rows| - 1]));
    } else {
      var lastA, lastB := a[|a| - 1], b[|b| - 1];
      VerifiedInit(env, a);
      VerifiedInit(env, b);
      e := SameHash(env, Seen(env, lastA), Seen(env, lastB));
      if e.Holds? {
        e := TamperEvident(env, a[..|a| - 1], b[..|b| - 1]);
        InRowsInit(env, e, a[..|a| - 1], b[..|b| - 1], a, b);
        if e.Holds? {
          AgreeSnoc(env, a, b);
        }
      }
    }
  }

  lemma AgreeSnoc(env: Env, a: seq<Row>, b: seq<Row>)
    requires a != [] && b != [] && Agree(env, a[..|a| - 1], b[..|b| - 1])
    requires var x, y := a[|a| - 1], b[|b| - 1];
             Readable(x) && Readable(y) && Seen(env, x) == Seen(env, y) && x.rowHash == y.rowHash
    ensures Agree(env, a, b)
  {
    forall i | 0 <= i < |a|
      ensures Readable(a[i]) && Readable(b[i]) && Seen(env, a[i]) == Seen(env, b[i]) && a[i].rowHash == b[i].rowHash
    {
      if i < |a| - 1 {
        assert a[i] == a[..|a| - 1][i] && b[i] == b[..|b| - 1][i];
      }
    }
  }

  predicate DistinctIds(rows: seq<Row>) {
    forall i, j :: 0 <= i < j < |rows| ==> rows[i].id != rows[j].id
  }

  /** A prefix of a list that verifies verifies: rows removed from the end leave no trace. */
  lemma PrefixVerifies(env: Env, rows: seq<Row>, n: nat)
    requires Verified(env, rows) && n <= |rows|
    ensures Verified(env, rows[..n])
  {
    forall i | 0 <= i < n ensures ValidAt(env, rows[..n], i) {
      assert ValidAt(env, rows, i) && rows[..n][..i] == rows[..i];
    }
  }

  /**
   * A list built from rows of a list that verifies, by deleting, reordering or repeating, verifies only
   * if it is a prefix of it, or the hash function is broken on its rows.
   */
  lemma {:induction false} RearrangementCaught(env: Env, rows: seq<Row>, pick: seq<nat>, list: seq<Row>)
    returns (e: Evidence)
    requires Verified(env, rows) && DistinctIds(rows)
    requires |list| == |pick| && forall j :: 0 <= j < |pick| ==> pick[j] < |rows| && list[j] == rows[pick[j]]
    requires Verified(env, list)
    ensures e.Holds? ==> list <= rows
    ensures !e.Holds? ==> Breaks(env, e) && From(env, e, rows, rows)
    decreases |list|
  {
    if list == [] {
      e := Holds;
    } else {
      var n := |list| - 1;
      VerifiedInit(env, list);
      e := RearrangementCaught(env, rows, pick[..n], list[..n]);
      if e.Holds? {
        var k := pick[n];
        assert ValidAt(env, rows, k);
        assert list[..n] == rows[..n];
        e := SameTip(env, rows, n, k);
        if e.Holds? {
          assert list == list[..n] + [rows[k]];
        }
      }
    }
  }

  /** In a list that verifies, two places with one tip before them are one place. */
  lemma SameTip(env: Env, rows: seq<Row>, i: nat, k: nat) returns (e: Evidence)
    requires Verified(env, rows) && DistinctIds(rows) && i <= |rows| && k <= |rows| && Tip(rows[..i]) == Tip(rows[..k])
    ensures e.Holds? ==> i == k
    ensures !e.Holds? ==> Breaks(env, e) && From(env, e, rows, rows)
  {
    if i == k {
      e := Holds;
    } else if i == 0 || k == 0 {
      var m := i + k - 1;
      assert ValidAt(env, rows, m);
      e := SeedPreimage(Seen(env, rows[m]));
    } else {
      assert ValidAt(env, rows, i - 1) && ValidAt(env, rows, k - 1);
      e := SameHash(env, Seen(env, rows[i - 1]), Seen(env, rows[k - 1]));
      assert rows[i - 1].id != rows[k - 1].id;
    }
  }
}
