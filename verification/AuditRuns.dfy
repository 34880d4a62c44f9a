/** Transactions that call Record, interleaved step by step. */
module AuditRuns {
  import opened Wrappers
  import opened Json
  import opened JsonOrder
  import opened AuditChain
  import opened AuditProtocol

  /** How far a call of Record has come: nothing under way, lock taken, tip read. */
  datatype Stage = Idle | Locked(event: Event) | HasTip(event: Event, prev: string)

  /** An open transaction: the rows it has inserted and no other can see, and its call of Record. */
  datatype Tx = Tx(pending: seq<Rec>, stage: Stage)

  datatype State = State(committed: seq<Rec>, open: map<nat, Tx>, locks: map<int, nat>)

  datatype Action =
    | Lock(tx: nat, event: Event)
    | ReadTip(tx: nat)
    | InsertEvent(tx: nat, id: Uuid, now: int, stored: Json)
    | Commit(tx: nat)
    | Rollback(tx: nat)

  const INIT: State := State([], map[], map[])

  function TxOf(s: State, t: nat): Tx {
    if t in s.open then s.open[t] else Tx([], Idle)
  }

  /** The rows of one chain, in the order they were inserted. */
  function OfTenant(recs: seq<Rec>, tenant: Option<Uuid>): seq<Rec> {
    if recs == [] then []
    else
      var last := recs[|recs| - 1];
      OfTenant(recs[..|recs| - 1], tenant) + if last.row.tenant == tenant then [last] else []
  }

  /** The rows of a chain that a statement of the transaction sees. */
  function Visible(s: State, t: nat, tenant: Option<Uuid>): seq<Rec> {
    OfTenant(s.committed + TxOf(s, t).pending, tenant)
  }

  predicate Holds(env: Env, s: State, t: nat, tenant: Option<Uuid>) {
    env.lockKey(tenant) in s.locks && s.locks[env.lockKey(tenant)] == t
  }

  function Prepared(e: Event): Event {
    if e.actorType == "" then e.(actorType := "user") else e
  }

  /** NULLIF(ip, '')::inet, read back with COALESCE(host(ip), ''). */
  function StoredIp(env: Env, ip: string): Option<string> {
    if ip == "" then Some("") else env.inet(ip)
  }

  /** The row Record inserts for an event. */
  function RecordOf(env: Env, e: Event, id: Uuid, now: int, prev: string, stored: Json, ip: string): Rec {
    var content := Content(id, UuidText(e.tenant), UuidText(e.actor), e.actorType, e.action, e.resourceType,
                           UuidText(e.resource), e.ip, e.userAgent, e.requestId, RecordedMetadata(e.metadata),
                           env.show(now), prev);
    Rec(Row(id, e.tenant, e.actor, e.actorType, e.action, e.resourceType, e.resource, ip, e.userAgent, e.requestId,
            Some(stored), now, prev, env.hash(Text(content))), e.ip, RecordedMetadata(e.metadata))
  }

  predicate FreshId(s: State, id: Uuid) {
    && (forall rec :: rec in s.committed ==> rec.row.id != id)
    && forall t :: t in s.open ==> forall rec :: rec in s.open[t].pending ==> rec.row.id != id
  }

  /** A statement that can run now. A lock held elsewhere, a bad address or a used id stop the transaction. */
  ghost predicate Enabled(env: Env, s: State, a: Action) {
    match a
    case Lock(t, e) =>
      TxOf(s, t).stage.Idle? && IsMap(e.metadata) && (env.lockKey(e.tenant) in s.locks ==> Holds(env, s, t, e.tenant))
    case ReadTip(t) => TxOf(s, t).stage.Locked?
    case InsertEvent(t, id, now, stored) =>
      var stage := TxOf(s, t).stage;
      && stage.HasTip? && FreshId(s, id) && StoredIp(env, stage.event.ip).Some?
      && Permuted(RecordedMetadata(stage.event.metadata), stored)
    case Commit(t) => TxOf(s, t).stage.Idle?
    case Rollback(t) => true
  }

  function Released(locks: map<int, nat>, t: nat): map<int, nat> {
    map k | k in locks && locks[k] != t :: locks[k]
  }

  ghost function Do(env: Env, s: State, a: Action): State
    requires Enabled(env, s, a)
  {
    match a
    case Lock(t, e) =>
      s.(open := s.open[t := TxOf(s, t).(stage := Locked(Prepared(e)))], locks := s.locks[env.lockKey(e.tenant) := t])
    case ReadTip(t) =>
      var e := TxOf(s, t).stage.event;
      s.(open := s.open[t := TxOf(s, t).(stage := HasTip(e, ChainTip(RowsOf(Visible(s, t, e.tenant)))))])
    case InsertEvent(t, id, now, stored) =>
      var stage := TxOf(s, t).stage;
      var rec := RecordOf(env, stage.event, id, now, stage.prev, stored, StoredIp(env, stage.event.ip).value);
      s.(open := s.open[t := Tx(TxOf(s, t).pending + [rec], Idle)])
    case Commit(t) =>
      State(s.committed + TxOf(s, t).pending, s.open - {t}, Released(s.locks, t))
    case Rollback(t) =>
      State(s.committed, s.open - {t}, Released(s.locks, t))
  }

  /** A run: None when an action cannot be taken. */
  ghost function Run(env: Env, s: State, actions: seq<Action>): Option<State>
    decreases |actions|
  {
    if actions == [] then Some(s)
    else if Enabled(env, s, actions[0]) then Run(env, Do(env, s, actions[0]), actions[1..])
    else None
  }

  // ---------------------------------------------------------------------------------------
  // The invariant
  // ---------------------------------------------------------------------------------------

  ghost predicate HoldsItsLocks(env: Env, s: State, t: nat) {
    var tx := TxOf(s, t);
    && (forall rec :: rec in tx.pending ==> Holds(env, s, t, rec.row.tenant))
    && (!tx.stage.Idle? ==> Holds(env, s, t, tx.stage.event.tenant) && IsMap(tx.stage.event.metadata))
  }

  ghost predicate TipIsCurrent(s: State, t: nat) {
    var stage := TxOf(s, t).stage;
    stage.HasTip? ==> stage.prev == ChainTip(RowsOf(Visible(s, t, stage.event.tenant)))
  }

  ghost predicate Inv(env: Env, s: State) {
    && (forall t: nat :: HoldsItsLocks(env, s, t))
    && (forall t: nat :: TipIsCurrent(s, t))
    && forall t: nat, x: Option<Uuid> :: Chain(env, Visible(s, t, x))
  }

  lemma {:induction false} OfTenantAppend(a: seq<Rec>, b: seq<Rec>, x: Option<Uuid>)
    ensures OfTenant(a + b, x) == OfTenant(a, x) + OfTenant(b, x)
  {
    if b == [] {
      assert a + b == a;
    } else {
      OfTenantAppend(a, b[..|b| - 1], x);
      assert (a + b)[..|a + b| - 1] == a + b[..|b| - 1];
    }
  }

  lemma {:induction false} OfTenantNone(recs: seq<Rec>, x: Option<Uuid>)
    requires forall rec :: rec in recs ==> rec.row.tenant != x
    ensures OfTenant(recs, x) == []
  {
    if recs != [] {
      OfTenantNone(recs[..|recs| - 1], x);
    }
  }

  lemma {:induction false} OfTenantFrom(recs: seq<Rec>, x: Option<Uuid>)
    ensures forall rec :: rec in OfTenant(recs, x) ==> rec in recs
  {
    if recs != [] {
      OfTenantFrom(recs[..|recs| - 1], x);
    }
  }

  lemma VisibleSplit(s: State, t: nat, x: Option<Uuid>)
    ensures Visible(s, t, x) == OfTenant(s.committed, x) + OfTenant(TxOf(s, t).pending, x)
  {
    OfTenantAppend(s.committed, TxOf(s, t).pending, x);
  }

  /** A transaction that does not hold a chain's lock has no rows of it to show. */
  lemma NoPending(env: Env, s: State, t: nat, x: Option<Uuid>)
    requires HoldsItsLocks(env, s, t) && !Holds(env, s, t, x)
    ensures OfTenant(TxOf(s, t).pending, x) == []
  {
    OfTenantNone(TxOf(s, t).pending, x);
  }

  /** What Record stores is what the verifier reads back, but for the address and the numbers of the metadata. */
  lemma RecordedIsHashed(env: Env, e: Event, id: Uuid, now: int, prev: string, stored: Json, ip: string)
    requires IsMap(e.metadata) && Permuted(RecordedMetadata(e.metadata), stored)
    ensures HashedAsSent(env, RecordOf(env, e, id, now, prev, stored, ip))
  {
    NormaliseRecovers(env, e.metadata, stored);
  }

  lemma LockKeeps(env: Env, s: State, a: Action)
    requires Inv(env, s) && Enabled(env, s, a) && (a.Lock? || a.ReadTip?)
    ensures Inv(env, Do(env, s, a))
  {
    var s' := Do(env, s, a);
    forall t: nat ensures HoldsItsLocks(env, s', t) {
      assert HoldsItsLocks(env, s, t);
    }
    forall t: nat ensures TxOf(s', t).pending == TxOf(s, t).pending {
    }
    forall t: nat ensures TipIsCurrent(s', t) {
      assert TipIsCurrent(s, t);
    }
    forall t: nat, x: Option<Uuid> ensures Chain(env, Visible(s', t, x)) {
      assert Visible(s', t, x) == Visible(s, t, x);
    }
  }

  lemma InsertKeeps(env: Env, s: State, a: Action)
    requires Inv(env, s) && Enabled(env, s, a) && a.InsertEvent?
    ensures Inv(env, Do(env, s, a))
  {
    var s' := Do(env, s, a);
    forall t: nat ensures HoldsItsLocks(env, s', t) && TipIsCurrent(s', t) {
      assert HoldsItsLocks(env, s, t) && TipIsCurrent(s, t);
    }
    assert HoldsItsLocks(env, s, a.tx);
    forall t: nat, x: Option<Uuid> ensures Chain(env, Visible(s', t, x)) {
      assert Chain(env, Visible(s, t, x));
      if t == a.tx {
        InsertedChain(env, s, a, x);
      } else {
        assert TxOf(s', t) == TxOf(s, t);
      }
    }
  }

  function NewRecord(env: Env, s: State, a: Action): Rec
    requires a.InsertEvent? && TxOf(s, a.tx).stage.HasTip? && StoredIp(env, TxOf(s, a.tx).stage.event.ip).Some?
  {
    var stage := TxOf(s, a.tx).stage;
    RecordOf(env, stage.event, a.id, a.now, stage.prev, a.stored, StoredIp(env, stage.event.ip).value)
  }

  lemma InsertedVisible(env: Env, s: State, a: Action, x: Option<Uuid>)
    requires Enabled(env, s, a) && a.InsertEvent?
    ensures Visible(Do(env, s, a), a.tx, x) ==
            Visible(s, a.tx, x) + if x == TxOf(s, a.tx).stage.event.tenant then [NewRecord(env, s, a)] else []
  {
    var pending, rec := TxOf(s, a.tx).pending, NewRecord(env, s, a);
    assert TxOf(Do(env, s, a), a.tx).pending == pending + [rec];
    assert s.committed + (pending + [rec]) == (s.committed + pending) + [rec];
    OfTenantAppend(s.committed + pending, [rec], x);
    assert OfTenant([rec], x) == OfTenant([], x) + if rec.row.tenant == x then [rec] else [];
  }

  lemma InsertedChain(env: Env, s: State, a: Action, x: Option<Uuid>)
    requires Enabled(env, s, a) && a.InsertEvent? && Chain(env, Visible(s, a.tx, x))
    requires HoldsItsLocks(env, s, a.tx) && TipIsCurrent(s, a.tx)
    ensures Chain(env, Visible(Do(env, s, a), a.tx, x))
  {
    var stage := TxOf(s, a.tx).stage;
    InsertedVisible(env, s, a, x);
    if x == stage.event.tenant {
      RecordedIsHashed(env, stage.event, a.id, a.now, stage.prev, a.stored, StoredIp(env, stage.event.ip).value);
      FreshInVisible(s, a.tx, a.id, x);
      ChainSnoc(env, Visible(s, a.tx, x), NewRecord(env, s, a));
    } else {
      assert Visible(s, a.tx, x) + [] == Visible(s, a.tx, x);
    }
  }

  lemma FreshInVisible(s: State, t: nat, id: Uuid, x: Option<Uuid>)
    requires FreshId(s, id)
    ensures forall i :: 0 <= i < |Visible(s, t, x)| ==> Visible(s, t, x)[i].row.id != id
  {
    OfTenantFrom(s.committed + TxOf(s, t).pending, x);
    forall i | 0 <= i < |Visible(s, t, x)| ensures Visible(s, t, x)[i].row.id != id {
      assert Visible(s, t, x)[i] in s.committed + TxOf(s, t).pending;
    }
  }

  lemma CommitKeeps(env: Env, s: State, a: Action)
    requires Inv(env, s) && Enabled(env, s, a) && (a.Commit? || a.Rollback?)
    ensures Inv(env, Do(env, s, a))
  {
    var s' := Do(env, s, a);
    forall t: nat ensures HoldsItsLocks(env, s', t) {
      assert HoldsItsLocks(env, s, t);
    }
    forall t: nat, x: Option<Uuid> ensures Chain(env, Visible(s', t, x)) {
      EndedChain(env, s, a, t, x);
    }
    forall t: nat ensures TipIsCurrent(s', t) {
      assert TipIsCurrent(s, t) && HoldsItsLocks(env, s, t) && HoldsItsLocks(env, s, a.tx);
      var stage := TxOf(s', t).stage;
      if stage.HasTip? {
        EndedElsewhere(env, s, a, t, stage.event.tenant);
      }
    }
  }

  /** Another transaction's commit adds nothing to a chain whose lock is held here. */
  lemma EndedElsewhere(env: Env, s: State, a: Action, t: nat, x: Option<Uuid>)
    requires (a.Commit? || a.Rollback?) && Enabled(env, s, a) && t != a.tx
    requires HoldsItsLocks(env, s, a.tx) && !Holds(env, s, a.tx, x)
    ensures Visible(Do(env, s, a), t, x) == Visible(s, t, x)
  {
    NoPending(env, s, a.tx, x);
    OfTenantAppend(s.committed, TxOf(s, a.tx).pending, x);
    VisibleSplit(s, t, x);
    VisibleSplit(Do(env, s, a), t, x);
  }

  lemma EndedChain(env: Env, s: State, a: Action, t: nat, x: Option<Uuid>)
    requires Inv(env, s) && Enabled(env, s, a) && (a.Commit? || a.Rollback?)
    ensures Chain(env, Visible(Do(env, s, a), t, x))
  {
    assert HoldsItsLocks(env, s, a.tx) && HoldsItsLocks(env, s, t);
    assert Chain(env, Visible(s, t, x)) && Chain(env, Visible(s, a.tx, x));
    if a.Rollback? {
      RolledBackChain(env, s, a, t, x);
    } else if t != a.tx && !Holds(env, s, a.tx, x) {
      EndedElsewhere(env, s, a, t, x);
    } else {
      if t != a.tx {
        NoPending(env, s, t, x);
      }
      CommittedHere(env, s, a, t, x);
    }
  }

  lemma CommittedHere(env: Env, s: State, a: Action, t: nat, x: Option<Uuid>)
    requires a.Commit? && Enabled(env, s, a) && (t == a.tx || OfTenant(TxOf(s, t).pending, x) == [])
    ensures Visible(Do(env, s, a), t, x) == Visible(s, a.tx, x)
  {
    var s' := Do(env, s, a);
    VisibleSplit(s', t, x);
    assert OfTenant(TxOf(s', t).pending, x) == [];
  }

  lemma RolledBackChain(env: Env, s: State, a: Action, t: nat, x: Option<Uuid>)
    requires a.Rollback? && Enabled(env, s, a) && Chain(env, Visible(s, t, x))
    ensures Chain(env, Visible(Do(env, s, a), t, x))
  {
    VisibleSplit(Do(env, s, a), t, x);
    VisibleSplit(s, t, x);
    if t == a.tx {
      ChainPrefix(env, Visible(s, t, x), |OfTenant(s.committed, x)|);
      assert Visible(Do(env, s, a), t, x) == Visible(s, t, x)[..|OfTenant(s.committed, x)|];
    }
  }

  lemma InitInv(env: Env)
    ensures Inv(env, INIT)
  {
    forall t: nat, x: Option<Uuid> ensures Visible(INIT, t, x) == [] {
    }
  }

  lemma {:induction false} RunKeeps(env: Env, s: State, actions: seq<Action>)
    requires Inv(env, s)
    ensures Run(env, s, actions).Some? ==> Inv(env, Run(env, s, actions).value)
    decreases |actions|
  {
    if actions != [] && Enabled(env, s, actions[0]) {
      match actions[0] {
        case Lock(_, _) => LockKeeps(env, s, actions[0]);
        case ReadTip(_) => LockKeeps(env, s, actions[0]);
        case InsertEvent(_, _, _, _) => InsertKeeps(env, s, actions[0]);
        case Commit(_) => CommitKeeps(env, s, actions[0]);
        case Rollback(_) => CommitKeeps(env, s, actions[0]);
      }
      RunKeeps(env, Do(env, s, actions[0]), actions[1..]);
    }
  }

  // ---------------------------------------------------------------------------------------
  // What every run leaves behind
  // ---------------------------------------------------------------------------------------

  /** The rows Verify is given for a tenant. */
  function Listed(s: State, x: Option<Uuid>): seq<Row> {
    Listing(RowsOf(OfTenant(s.committed, x)))
  }

  /** In every interleaving each tenant's committed rows form one chain, in the order of insertion. */
  lemma CommittedChain(env: Env, actions: seq<Action>, x: Option<Uuid>)
    requires Run(env, INIT, actions).Some?
    ensures Chain(env, OfTenant(Run(env, INIT, actions).value.committed, x))
  {
    var s := Run(env, INIT, actions).value;
    InitInv(env);
    RunKeeps(env, INIT, actions);
    assert Chain(env, Visible(s, 0, x));
    VisibleSplit(s, 0, x);
    ChainPrefix(env, Visible(s, 0, x), |OfTenant(s.committed, x)|);
    assert OfTenant(s.committed, x) == Visible(s, 0, x)[..|OfTenant(s.committed, x)|];
  }

  /**
   * After every run a tenant's chain verifies if its rows were inserted in the order of (created_at, id)
   * and the columns gave back each address and each number in the metadata as sent; and only then, unless
   * the hash function is broken on these rows.
   */
  lemma VerifiesIffOrdered(env: Env, actions: seq<Action>, x: Option<Uuid>) returns (e: Evidence)
    requires Run(env, INIT, actions).Some?
    ensures var s := Run(env, INIT, actions).value;
            var recs := OfTenant(s.committed, x);
            && (InOrder(RowsOf(recs)) && SentAsStored(env, recs) ==>
                Verified(env, Listed(s, x)) && |Listed(s, x)| == |recs|)
            && (e.Holds? && Verified(env, Listed(s, x)) ==> InOrder(RowsOf(recs)) && SentAsStored(env, recs))
            && (!e.Holds? ==> Breaks(env, e) && FromRecs(env, e, recs))
  {
    var s := Run(env, INIT, actions).value;
    var recs := OfTenant(s.committed, x);
    CommittedChain(env, actions, x);
    e := Evidence.Holds;
    if InOrder(RowsOf(recs)) && SentAsStored(env, recs) {
      OrderedChainVerifies(env, recs);
    } else if Verified(env, Listed(s, x)) {
      e := VerifiedChainIsOrdered(env, recs);
    }
  }

  // ---------------------------------------------------------------------------------------
  // What a row says about the event it was recorded for
  // ---------------------------------------------------------------------------------------

  function OrEmpty(u: Option<Uuid>): string {
    match u
    case None => ""
    case Some(text) => text
  }

  /** The metadata that is hashed: keys sorted, a nil map as an empty object. */
  function MetadataOf(e: Event): Json {
    match e.metadata
    case None => JObject([])
    case Some(fields) => Canon(JObject(fields))
  }

  /** The row is the event's, field by field; an event without an actor type is a user's. */
  ghost predicate RowTells(env: Env, row: Row, e: Event) {
    && row.tenant == e.tenant && row.actor == e.actor && row.action == e.action
    && row.actorType == (if e.actorType == "" then "user" else e.actorType)
    && row.resourceType == e.resourceType && row.resource == e.resource
    && row.userAgent == e.userAgent && row.requestId == e.requestId
    && (if e.ip == "" then row.ip == "" else env.inet(e.ip) == Some(row.ip))
    && row.metadata.Some? && Permuted(MetadataOf(e), row.metadata.value)
  }

  /** So is the text that was hashed. */
  predicate HashTells(env: Env, row: Row, e: Event) {
    row.rowHash == env.hash(Text(Content(
      id := row.id,
      tenant := OrEmpty(e.tenant),
      actor := OrEmpty(e.actor),
      actorType := if e.actorType == "" then "user" else e.actorType,
      action := e.action,
      resourceType := e.resourceType,
      resource := OrEmpty(e.resource),
      ip := e.ip,
      userAgent := e.userAgent,
      requestId := e.requestId,
      metadata := MetadataOf(e),
      createdAt := env.show(row.createdAt),
      prevHash := row.prevHash)))
  }

  ghost predicate Tells(env: Env, row: Row, e: Event) {
    RowTells(env, row, e) && HashTells(env, row, e)
  }

  lemma RecordTells(env: Env, e: Event, id: Uuid, now: int, prev: string, stored: Json, ip: string)
    requires StoredIp(env, e.ip) == Some(ip) && Permuted(RecordedMetadata(e.metadata), stored)
    ensures var row := RecordOf(env, Prepared(e), id, now, prev, stored, ip).row;
            Tells(env, row, e) && row.id == id && row.createdAt == now && row.prevHash == prev
  {
  }

  /** The transaction has one more pending row than before, and it is the event's. */
  ghost predicate AddsRowFor(env: Env, s: State, s': State, t: nat, e: Event, id: Uuid, now: int) {
    var before, after := TxOf(s, t).pending, TxOf(s', t).pending;
    && |after| == |before| + 1 && after[..|before|] == before
    && Tells(env, after[|before|].row, e) && after[|before|].row.id == id && after[|before|].row.createdAt == now
  }

  lemma ThreeStepsTell(env: Env, s: State, s1: State, s2: State, t: nat, e: Event, id: Uuid, now: int, stored: Json)
    requires Enabled(env, s, Lock(t, e)) && s1 == Do(env, s, Lock(t, e)) && s2 == Do(env, s1, ReadTip(t))
    requires Enabled(env, s2, InsertEvent(t, id, now, stored))
    ensures AddsRowFor(env, s, Do(env, s2, InsertEvent(t, id, now, stored)), t, e, id, now)
  {
    RecordTells(env, e, id, now, TxOf(s2, t).stage.prev, stored, StoredIp(env, e.ip).value);
  }

  ghost predicate OfOne(env: Env, row: Row, events: set<Event>) {
    exists e :: e in events && Tells(env, row, e)
  }

  ghost predicate BegunWith(stage: Stage, events: set<Event>) {
    !stage.Idle? ==> exists e :: e in events && stage.event == Prepared(e)
  }

  ghost predicate TxOfEvents(env: Env, tx: Tx, events: set<Event>) {
    BegunWith(tx.stage, events) && forall rec :: rec in tx.pending ==> OfOne(env, rec.row, events)
  }

  /** Every row, committed or pending, and every call under way, is of one of the events. */
  ghost predicate OfEvents(env: Env, s: State, events: set<Event>) {
    && (forall rec :: rec in s.committed ==> OfOne(env, rec.row, events))
    && forall t :: t in s.open ==> TxOfEvents(env, s.open[t], events)
  }

  lemma StepOfEvents(env: Env, s: State, a: Action, events: set<Event>)
    requires OfEvents(env, s, events) && Enabled(env, s, a) && (a.Lock? ==> a.event in events)
    ensures OfEvents(env, Do(env, s, a), events)
  {
    assert TxOfEvents(env, TxOf(s, a.tx), events);
    if a.InsertEvent? {
      InsertOfEvents(env, s, a, events);
    } else {
      forall t | t in Do(env, s, a).open ensures TxOfEvents(env, Do(env, s, a).open[t], events) {
        assert t != a.tx ==> t in s.open && Do(env, s, a).open[t] == s.open[t];
      }
    }
  }

  lemma InsertOfEvents(env: Env, s: State, a: Action, events: set<Event>)
    requires OfEvents(env, s, events) && Enabled(env, s, a) && a.InsertEvent? && TxOfEvents(env, TxOf(s, a.tx), events)
    ensures OfEvents(env, Do(env, s, a), events)
  {
    var s', stage := Do(env, s, a), TxOf(s, a.tx).stage;
    var e :| e in events && stage.event == Prepared(e);
    RecordTells(env, e, a.id, a.now, stage.prev, a.stored, StoredIp(env, e.ip).value);
    assert OfOne(env, NewRecord(env, s, a).row, events);
    assert s'.open[a.tx] == Tx(TxOf(s, a.tx).pending + [NewRecord(env, s, a)], Idle);
    assert TxOfEvents(env, s'.open[a.tx], events);
    forall t | t in s'.open ensures TxOfEvents(env, s'.open[t], events) {
      assert t != a.tx ==> t in s.open && s'.open[t] == s.open[t];
    }
  }

  lemma {:induction false} RunOfEvents(env: Env, s: State, actions: seq<Action>, events: set<Event>)
    requires OfEvents(env, s, events)
    requires forall i :: 0 <= i < |actions| && actions[i].Lock? ==> actions[i].event in events
    ensures Run(env, s, actions).Some? ==> OfEvents(env, Run(env, s, actions).value, events)
    decreases |actions|
  {
    if actions != [] && Enabled(env, s, actions[0]) {
      StepOfEvents(env, s, actions[0], events);
      assert forall i :: 0 <= i < |actions| - 1 ==> actions[1..][i] == actions[i + 1];
      RunOfEvents(env, Do(env, s, actions[0]), actions[1..], events);
    }
  }

  /** In every run each committed row, and the text hashed for it, is that of an event some call was given. */
  lemma EveryRowTells(env: Env, actions: seq<Action>, rec: Rec)
    requires Run(env, INIT, actions).Some? && rec in Run(env, INIT, actions).value.committed
    ensures exists i :: 0 <= i < |actions| && actions[i].Lock? && Tells(env, rec.row, actions[i].event)
  {
    var events := set i | 0 <= i < |actions| && actions[i].Lock? :: actions[i].event;
    RunOfEvents(env, INIT, actions, events);
    assert OfOne(env, rec.row, events);
    var e :| e in events && Tells(env, rec.row, e);
  }
}
