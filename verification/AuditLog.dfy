/** The audit log as its callers use it: Record in a transaction, Verify over a tenant, and three runs that fail. */
module AuditLog {
  import opened Wrappers
  import opened Json
  import opened JsonOrder
  import opened AuditChain
  import opened AuditProtocol
  import opened AuditRuns

  datatype Outcome = Recorded | Blocked | BadAddress

  class Database {
    var state: State

    constructor ()
      ensures state == INIT
    {
      state := INIT;
    }

    /** pg_advisory_xact_lock on the chain's name; false when another transaction holds it. */
    method LockChain(env: Env, t: nat, event: Event) returns (ok: bool)
      requires TxOf(state, t).stage.Idle? && IsMap(event.metadata)
      modifies this
      ensures ok <==> Enabled(env, old(state), Lock(t, event))
      ensures state == if ok then Do(env, old(state), Lock(t, event)) else old(state)
    {
      var e := if event.actorType == "" then event.(actorType := "user") else event;
      var key := env.lockKey(e.tenant);
      ok := key !in state.locks || state.locks[key] == t;
      if ok {
        state := state.(open := state.open[t := TxOf(state, t).(stage := Locked(e))], locks := state.locks[key := t]);
      }
    }

    /** GetAuditChainTip; no row leaves the seed. */
    method FetchTip(env: Env, t: nat) returns (prevHash: string)
      requires TxOf(state, t).stage.Locked?
      modifies this
      ensures state == Do(env, old(state), ReadTip(t))
      ensures TxOf(state, t).stage == HasTip(TxOf(old(state), t).stage.event, prevHash)
    {
      prevHash := SEED;
      var e := TxOf(state, t).stage.event;
      var rows := RowsOf(Visible(state, t, e.tenant));
      if rows != [] {
        prevHash := rows[Newest(rows)].rowHash;
      }
      state := state.(open := state.open[t := TxOf(state, t).(stage := HasTip(e, prevHash))]);
    }

    /** Hashing the event's content and InsertAuditEvent; false when the address cannot be cast. */
    method HashAndInsert(env: Env, t: nat, id: Uuid, now: int, stored: Json) returns (ok: bool)
      requires TxOf(state, t).stage.HasTip? && FreshId(state, id)
      requires Permuted(RecordedMetadata(TxOf(state, t).stage.event.metadata), stored)
      modifies this
      ensures ok <==> Enabled(env, old(state), InsertEvent(t, id, now, stored))
      ensures state == if ok then Do(env, old(state), InsertEvent(t, id, now, stored)) else old(state)
    {
      var e, prevHash := TxOf(state, t).stage.event, TxOf(state, t).stage.prev;
      var content := Content(id, UuidText(e.tenant), UuidText(e.actor), e.actorType, e.action, e.resourceType,
                             UuidText(e.resource), e.ip, e.userAgent, e.requestId, RecordedMetadata(e.metadata),
                             env.show(now), prevHash);
      var rowHash := env.hash(Text(content));
      var ip := StoredIp(env, e.ip);
      ok := ip.Some?;
      if ok {
        var row := Row(id, e.tenant, e.actor, e.actorType, e.action, e.resourceType, e.resource, ip.value, e.userAgent,
                       e.requestId, Some(stored), now, prevHash, rowHash);
        var rec := Rec(row, e.ip, RecordedMetadata(e.metadata));
        state := state.(open := state.open[t := Tx(TxOf(state, t).pending + [rec], Idle)]);
      }
    }

    /**
     * One call of Record that no other transaction interrupts: the three statements of a run, or it
     * waits for the chain's lock, or the cast of the address fails with the lock taken.
     */
    method Record(env: Env, t: nat, event: Event, id: Uuid, now: int, stored: Json) returns (outcome: Outcome)
      requires TxOf(state, t).stage.Idle? && IsMap(event.metadata) && FreshId(state, id)
      requires Permuted(RecordedMetadata(event.metadata), stored)
      modifies this
      ensures outcome.Blocked? ==> state == old(state) && !Enabled(env, state, Lock(t, event))
      ensures outcome.BadAddress? ==>
        Run(env, old(state), [Lock(t, event), ReadTip(t)]) == Some(state) && StoredIp(env, event.ip).None?
      ensures outcome.Recorded? ==>
        Run(env, old(state), [Lock(t, event), ReadTip(t), InsertEvent(t, id, now, stored)]) == Some(state)
      ensures outcome.Recorded? ==> AddsRowFor(env, old(state), state, t, event, id, now)
    {
      var locked := LockChain(env, t, event);
      if !locked {
        return Blocked;
      }
      ghost var s1 := state;
      var _ := FetchTip(env, t);
      ghost var s2 := state;
      RunTwo(env, old(state), Lock(t, event), s1, ReadTip(t), s2);
      StillFresh(old(state), s2, t, id);
      var inserted := HashAndInsert(env, t, id, now, stored);
      if !inserted {
        return BadAddress;
      }
      RunThree(env, old(state), Lock(t, event), s1, ReadTip(t), s2, InsertEvent(t, id, now, stored), state);
      ThreeStepsTell(env, old(state), s1, s2, t, event, id, now, stored);
      return Recorded;
    }

    /** A tenant's chain that was written in order and stored unchanged is accepted, every row of it checked. */
    method VerifyTenant(env: Env, tenant: Option<Uuid>, ghost run: seq<Action>) returns (r: Result<Verdict, string>)
      requires Run(env, INIT, run) == Some(state)
      ensures var recs := OfTenant(state.committed, tenant);
              InOrder(RowsOf(recs)) && SentAsStored(env, recs) ==>
                r.Ok? && r.value.ok && r.value.rowsChecked == |recs| && r.value.brokenAt == None
    {
      ghost var _ := VerifiesIffOrdered(env, run, tenant);
      r := Verify(env, Listed(state, tenant));
    }
  }

  lemma StillFresh(s: State, s': State, t: nat, id: Uuid)
    requires FreshId(s, id) && s'.committed == s.committed && s'.open.Keys == s.open.Keys + {t}
    requires TxOf(s', t).pending == TxOf(s, t).pending && forall u :: u in s.open && u != t ==> s'.open[u] == s.open[u]
    ensures FreshId(s', id)
  {
  }

  lemma RunTwo(env: Env, s: State, a: Action, s1: State, b: Action, s2: State)
    requires Enabled(env, s, a) && Do(env, s, a) == s1 && Enabled(env, s1, b) && Do(env, s1, b) == s2
    ensures Run(env, s, [a, b]) == Some(s2)
  {
    RunSnoc(env, s, [], a);
    RunSnoc(env, s, [a], b);
    assert [] + [a] == [a] && [a] + [b] == [a, b];
  }

  lemma RunThree(env: Env, s: State, a: Action, s1: State, b: Action, s2: State, c: Action, s3: State)
    requires Enabled(env, s, a) && Do(env, s, a) == s1 && Enabled(env, s1, b) && Do(env, s1, b) == s2
    requires Enabled(env, s2, c) && Do(env, s2, c) == s3
    ensures Run(env, s, [a, b, c]) == Some(s3)
  {
    RunTwo(env, s, a, s1, b, s2);
    RunSnoc(env, s, [a, b], c);
    assert [a, b] + [c] == [a, b, c];
  }

  lemma {:induction false} RunSnoc(env: Env, s: State, actions: seq<Action>, a: Action)
    requires Run(env, s, actions).Some? && Enabled(env, Run(env, s, actions).value, a)
    ensures Run(env, s, actions + [a]) == Some(Do(env, Run(env, s, actions).value, a))
    decreases |actions|
  {
    if actions == [] {
      assert actions + [a] == [a] && [a][1..] == [];
    } else {
      RunSnoc(env, Do(env, s, actions[0]), actions[1..], a);
      assert (actions + [a])[1..] == actions[1..] + [a];
    }
  }

  // ---------------------------------------------------------------------------------------
  // The chain does not always verify
  // ---------------------------------------------------------------------------------------

  function PlatformEvent(ip: string, metadata: Option<seq<Field>>): Event {
    Event(None, None, "system", "a", "r", None, ip, "", "", metadata)
  }

  /** The first integer that no float64 holds, and the one it becomes. */
  const LARGE: Number := "9007199254740993"
  const ROUNDED: Number := "9007199254740992"

  function PlainNumber(n: Number): Number {
    if n == LARGE then ROUNDED else n
  }

  /** A hash without collisions, an address column that shortens one address, a float64 that rounds one number. */
  function PlainEnv(): Env {
    Env(x => x, t => if t < 5 then "4" else "5", ip => Some(if ip == "::0001" then "::1" else ip), x => 0, PlainNumber)
  }

  lemma PlainIsUnbroken(e: Evidence)
    ensures !Breaks(PlainEnv(), e)
  {
    match e {
      case SeedPreimage(x) =>
        assert Text(x)[0] == '{' && SEED[0] == '0';
      case _ =>
    }
  }

  /** A run goes on with a whole transaction of one event, when no other is open. */
  lemma OneCallRuns(before: seq<Action>, s: State, t: nat, e: Event, id: Uuid, now: int)
    returns (run: seq<Action>, rec: Rec)
    requires Run(PlainEnv(), INIT, before) == Some(s) && s.open == map[] && s.locks == map[] && FreshId(s, id)
    requires e.tenant.None? && e.actorType != "" && IsMap(e.metadata)
    requires Permuted(RecordedMetadata(e.metadata), RecordedMetadata(e.metadata))
    ensures Run(PlainEnv(), INIT, run) == Some(State(s.committed + [rec], map[], map[]))
    ensures RecordFor(rec, e, id, now)
  {
    var env, lock, insert := PlainEnv(), Lock(t, e), InsertEvent(t, id, now, RecordedMetadata(e.metadata));
    var s1 := Do(env, s, lock);
    var s2 := Do(env, s1, ReadTip(t));
    rec := Inserted(s, s1, s2, t, e, id, now);
    Committed(s, Do(env, s2, insert), t, rec);
    RunSnoc(env, INIT, before, lock);
    RunSnoc(env, INIT, before + [lock], ReadTip(t));
    RunSnoc(env, INIT, before + [lock] + [ReadTip(t)], insert);
    RunSnoc(env, INIT, before + [lock] + [ReadTip(t)] + [insert], Commit(t));
    run := before + [lock] + [ReadTip(t)] + [insert] + [Commit(t)];
  }

  predicate RecordFor(rec: Rec, e: Event, id: Uuid, now: int) {
    && rec.row.createdAt == now && rec.row.id == id && rec.row.tenant.None?
    && rec.sentIp == e.ip && rec.sentMetadata == RecordedMetadata(e.metadata)
    && rec.row.ip == if e.ip == "::0001" then "::1" else e.ip
  }

  lemma RecordIs(s: State, t: nat, e: Event, prev: string, id: Uuid, now: int)
    requires TxOf(s, t).stage == HasTip(e, prev) && e.tenant.None?
    ensures StoredIp(PlainEnv(), e.ip).Some?
    ensures RecordFor(NewRecord(PlainEnv(), s, InsertEvent(t, id, now, RecordedMetadata(e.metadata))), e, id, now)
  {
  }

  lemma Inserted(s: State, s1: State, s2: State, t: nat, e: Event, id: Uuid, now: int) returns (rec: Rec)
    requires s.open == map[] && s.locks == map[] && FreshId(s, id)
    requires e.tenant.None? && e.actorType != "" && IsMap(e.metadata)
    requires s1 == Do(PlainEnv(), s, Lock(t, e)) && s2 == Do(PlainEnv(), s1, ReadTip(t))
    requires Permuted(RecordedMetadata(e.metadata), RecordedMetadata(e.metadata))
    ensures Enabled(PlainEnv(), s2, InsertEvent(t, id, now, RecordedMetadata(e.metadata)))
    ensures var s3 := Do(PlainEnv(), s2, InsertEvent(t, id, now, RecordedMetadata(e.metadata)));
            s3.committed == s.committed && s3.locks == map[0 := t] && s3.open == map[t := Tx([rec], Idle)]
    ensures RecordFor(rec, e, id, now)
  {
    RecordIs(s2, t, e, TxOf(s2, t).stage.prev, id, now);
    rec := NewRecord(PlainEnv(), s2, InsertEvent(t, id, now, RecordedMetadata(e.metadata)));
    assert [] + [rec] == [rec];
  }

  lemma Committed(s: State, s3: State, t: nat, rec: Rec)
    requires s3 == State(s.committed, map[t := Tx([rec], Idle)], map[0 := t])
    ensures Enabled(PlainEnv(), s3, Commit(t))
    ensures Do(PlainEnv(), s3, Commit(t)) == State(s.committed + [rec], map[], map[])
  {
    assert s3.open - {t} == map[] && Released(s3.locks, t) == map[];
  }

  /**
   * Two transactions one after the other, the second on a host whose clock is behind: the second links to
   * the first, the listing puts it before the first, and no hash collision is needed for Verify to fail.
   */
  lemma SlowClockBreaksTheChain() returns (run: seq<Action>)
    ensures Run(PlainEnv(), INIT, run).Some?
    ensures SentAsStored(PlainEnv(), OfTenant(Run(PlainEnv(), INIT, run).value.committed, None))
    ensures !Verified(PlainEnv(), Listed(Run(PlainEnv(), INIT, run).value, None))
  {
    var first, second: Rec;
    run, first, second := TwoCalls();
    var s := Run(PlainEnv(), INIT, run).value;
    OfTenantAll(s.committed);
    var e := VerifiesIffOrdered(PlainEnv(), run, None);
    PlainIsUnbroken(e);
    assert !Earlier(RowsOf(s.committed)[0], RowsOf(s.committed)[1]);
  }

  /** A call without an address or metadata, which come back as they were sent. */
  lemma PlainCallRuns(before: seq<Action>, s: State, t: nat, id: Uuid, now: int) returns (run: seq<Action>, rec: Rec)
    requires Run(PlainEnv(), INIT, before) == Some(s) && s.open == map[] && s.locks == map[] && FreshId(s, id)
    ensures Run(PlainEnv(), INIT, run) == Some(State(s.committed + [rec], map[], map[]))
    ensures rec.row.createdAt == now && rec.row.id == id && rec.row.tenant.None?
    ensures rec.sentIp == rec.row.ip && NumbersKept(PlainEnv().number, rec.sentMetadata)
  {
    assert Permuted(EMPTY_OBJECT, EMPTY_OBJECT);
    run, rec := OneCallRuns(before, s, t, PlatformEvent("", None), id, now);
  }

  lemma TwoCalls() returns (run: seq<Action>, first: Rec, second: Rec)
    ensures Run(PlainEnv(), INIT, run) == Some(State([first, second], map[], map[]))
    ensures first.row.createdAt == 5 && second.row.createdAt == 4 && first.row.tenant.None? && second.row.tenant.None?
    ensures SentAsStored(PlainEnv(), [first, second])
  {
    var one;
    one, first := PlainCallRuns([], INIT, 1, "a", 5);
    assert [] + [first] == [first];
    FreshAfter(first, "b");
    run, second := PlainCallRuns(one, State([first], map[], map[]), 2, "b", 4);
    assert [first] + [second] == [first, second];
  }

  lemma FreshAfter(rec: Rec, id: Uuid)
    requires rec.row.id != id
    ensures FreshId(State([rec], map[], map[]), id)
  {
  }

  /** A row that does not come back as it was sent does not verify. */
  lemma OneBadRecord(run: seq<Action>, rec: Rec)
    requires Run(PlainEnv(), INIT, run) == Some(State([rec], map[], map[])) && rec.row.tenant.None?
    requires rec.sentIp != rec.row.ip || !NumbersKept(PlainEnv().number, rec.sentMetadata)
    ensures InOrder(RowsOf(OfTenant(Run(PlainEnv(), INIT, run).value.committed, None)))
    ensures !Verified(PlainEnv(), Listed(Run(PlainEnv(), INIT, run).value, None))
  {
    OfTenantAll([rec]);
    var e := VerifiesIffOrdered(PlainEnv(), run, None);
    PlainIsUnbroken(e);
    assert [rec][0] == rec;
  }

  /** One event whose address the column writes differently: its own row does not verify. */
  lemma ShortenedAddressBreaksTheChain() returns (run: seq<Action>)
    ensures Run(PlainEnv(), INIT, run).Some?
    ensures InOrder(RowsOf(OfTenant(Run(PlainEnv(), INIT, run).value.committed, None)))
    ensures !Verified(PlainEnv(), Listed(Run(PlainEnv(), INIT, run).value, None))
  {
    var rec;
    assert Permuted(EMPTY_OBJECT, EMPTY_OBJECT);
    run, rec := OneCallRuns([], INIT, 1, PlatformEvent("::0001", None), "a", 5);
    assert [] + [rec] == [rec];
    assert "::0001"[2] == '0' && "::1"[2] == '1';
    OneBadRecord(run, rec);
  }

  /** The metadata of one event: {"n": 9007199254740993}. */
  function LargeMetadata(): seq<Field> {
    [Field("n", JNumber(LARGE))]
  }

  lemma LargeIsRecorded()
    ensures RecordedMetadata(Some(LargeMetadata())) == JObject(LargeMetadata())
    ensures Permuted(JObject(LargeMetadata()), JObject(LargeMetadata())) && IsMap(Some(LargeMetadata()))
    ensures !NumbersKept(PlainEnv().number, JObject(LargeMetadata()))
  {
    assert LargeMetadata()[1..] == [] && CanonFields(LargeMetadata()) == LargeMetadata();
    assert Insert(LargeMetadata()[0], []) == LargeMetadata();
    assert LARGE[15] == '3' && ROUNDED[15] == '2';
    assert !NumbersKept(PlainEnv().number, LargeMetadata()[0].val);
  }

  /** One event with an integer that no float64 holds: its own row does not verify. */
  lemma LargeNumberBreaksTheChain() returns (run: seq<Action>)
    ensures Run(PlainEnv(), INIT, run).Some?
    ensures InOrder(RowsOf(OfTenant(Run(PlainEnv(), INIT, run).value.committed, None)))
    ensures !Verified(PlainEnv(), Listed(Run(PlainEnv(), INIT, run).value, None))
  {
    var rec;
    LargeIsRecorded();
    run, rec := OneCallRuns([], INIT, 1, PlatformEvent("", Some(LargeMetadata())), "a", 5);
    assert [] + [rec] == [rec];
    OneBadRecord(run, rec);
  }

  lemma {:induction false} OfTenantAll(recs: seq<Rec>)
    requires forall rec :: rec in recs ==> rec.row.tenant.None?
    ensures OfTenant(recs, None) == recs
  {
    if recs != [] {
      OfTenantAll(recs[..|recs| - 1]);
      assert recs == recs[..|recs| - 1] + [recs[|recs| - 1]];
    }
  }
}
