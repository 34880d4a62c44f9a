/** When a SCIM patch applied as one batch does what its operations do one by one. */
module ScimOrder {
  import opened Wrappers
  import opened ScimPatch

  predicate Untouched(changes: seq<Change>, id: Id) {
    forall i :: 0 <= i < |changes| ==> !TakesOut(changes[i], id)
  }

  /** Who is a member after the changes in turn. */
  lemma {:induction false} InTurnIs(members: set<Id>, changes: seq<Change>, live: set<Id>, id: Id)
    ensures id in InTurn(members, changes, live) <==>
            (id in live && AddStands(changes, id)) || (id in members && Untouched(changes, id))
  {
    if changes != [] {
      var n := |changes| - 1;
      InTurnIs(members, changes[..n], live, id);
      StandsSnoc(changes, id);
    }
  }

  lemma StandsSnoc(changes: seq<Change>, id: Id)
    requires changes != []
    ensures var n := |changes| - 1;
            && (AddStands(changes, id) <==>
                  changes[n] == AddOne(id) || (AddStands(changes[..n], id) && !TakesOut(changes[n], id)))
            && (Untouched(changes, id) <==> Untouched(changes[..n], id) && !TakesOut(changes[n], id))
  {
    var n := |changes| - 1;
    if AddStands(changes[..n], id) && !TakesOut(changes[n], id) {
      var k :| 0 <= k < n && changes[..n][k] == AddOne(id) && forall i :: k < i < n ==> !TakesOut(changes[..n][i], id);
      assert forall i :: k < i < n ==> changes[..n][i] == changes[i];
      assert changes[k] == AddOne(id);
    }
    if AddStands(changes, id) && changes[n] != AddOne(id) {
      var k :| 0 <= k <= n && changes[k] == AddOne(id) && forall i :: k < i <= n ==> !TakesOut(changes[i], id);
      assert changes[..n][k] == AddOne(id);
      assert forall i :: k < i < n ==> changes[..n][i] == changes[i];
    }
    if Untouched(changes, id) {
      assert forall i :: 0 <= i < n ==> changes[..n][i] == changes[i];
    }
    if Untouched(changes[..n], id) && !TakesOut(changes[n], id) {
      forall i | 0 <= i <= n ensures !TakesOut(changes[i], id) {
        assert i < n ==> changes[..n][i] == changes[i];
      }
    }
  }

  lemma {:induction false} AddedIn(changes: seq<Change>, id: Id)
    ensures id in Added(changes) <==> AddOne(id) in changes
    ensures id in Removed(changes) <==> RemoveOne(id) in changes
  {
    if changes != [] {
      AddedIn(changes[..|changes| - 1], id);
      assert changes == changes[..|changes| - 1] + [changes[|changes| - 1]];
    }
  }

  function Batch(members: set<Id>, changes: seq<Change>, live: set<Id>): set<Id> {
    PatchedMembers(members, GroupPatch(None, None, Added(changes), Removed(changes), Clears(changes)), live)
  }

  /** Whether an id is a member after the changes as one batch. */
  predicate InBatch(changes: seq<Change>, id: Id, was: bool, live: bool) {
    RemoveOne(id) !in changes && ((live && AddOne(id) in changes) || (was && Clear !in changes))
  }

  /** Whether it is one after the changes in turn. */
  predicate AtEnd(changes: seq<Change>, id: Id, was: bool, live: bool) {
    (live && AddStands(changes, id)) || (was && Untouched(changes, id))
  }

  lemma BatchIs(members: set<Id>, changes: seq<Change>, live: set<Id>, id: Id)
    ensures id in Batch(members, changes, live) <==> InBatch(changes, id, id in members, id in live)
  {
    AddedIn(changes, id);
  }

  /** Batch and turn agree about one id. */
  lemma AgreeOn(changes: seq<Change>, id: Id, was: bool, live: bool)
    ensures (InBatch(changes, id, was, live) <==> AtEnd(changes, id, was, live)) <==>
            (AddOne(id) in changes && live ==> (AddStands(changes, id) <==> RemoveOne(id) !in changes))
  {
    if AddOne(id) in changes {
      var k :| 0 <= k < |changes| && changes[k] == AddOne(id);
      assert Untouched(changes, id) ==> AddStands(changes, id);
    }
    assert Untouched(changes, id) <==> Clear !in changes && RemoveOne(id) !in changes;
  }

  /** Whatever the members were, batch and turn agree exactly when the order of the changes does not matter. */
  lemma BatchIsInTurnIff(members: set<Id>, changes: seq<Change>, live: set<Id>)
    ensures Batch(members, changes, live) == InTurn(members, changes, live) <==> OrderFree(changes, live)
  {
    forall id
      ensures (id in Batch(members, changes, live) <==> id in InTurn(members, changes, live)) <==>
              (AddOne(id) in changes && id in live ==> (AddStands(changes, id) <==> RemoveOne(id) !in changes))
    {
      BatchIs(members, changes, live, id);
      InTurnIs(members, changes, live, id);
      AgreeOn(changes, id, id in members, id in live);
    }
    if OrderFree(changes, live) {
      assert forall id :: id in Batch(members, changes, live) <==> id in InTurn(members, changes, live);
    }
  }

  lemma {:induction false} InTurnJoin(members: set<Id>, a: seq<Change>, b: seq<Change>, live: set<Id>)
    ensures InTurn(members, a + b, live) == InTurn(InTurn(members, a, live), b, live)
  {
    if b == [] {
      assert a + b == a;
    } else {
      InTurnJoin(members, a, b[..|b| - 1], live);
      assert (a + b)[..|a + b| - 1] == a + b[..|b| - 1];
    }
  }

  /** One operation by itself is always order free. */
  lemma OneOperation(op: Operation, live: set<Id>)
    ensures OrderFree(Changes(op), live)
  {
    var changes := Changes(op);
    forall k | 0 <= k < |changes| && changes[k].AddOne? ensures AddStands(changes, changes[k].id) {
      assert forall i :: 0 < i < |changes| ==> changes[i].AddOne?;
    }
  }

  lemma OneRequest(g: Group, op: Operation, live: set<Id>)
    ensures Patched(g, Compiled([op]), live).members == InTurn(g.members, Changes(op), live)
    ensures Compiled([op]).setName == NameIn(op) && Compiled([op]).setExternalId == ExternalIdIn(op)
  {
    CompiledSnoc([], op);
    assert [] + [op] == [op] && [] + Changes(op) == Changes(op);
    OneOperation(op, live);
    BatchIsInTurnIff(g.members, Changes(op), live);
  }

  /** One by one, the operations that are accepted alone take effect, in turn. */
  lemma {:induction false} OneByOneIs(g: Group, ops: seq<Operation>, st: Store)
    ensures var inTurn, done := OneByOne(g, ops, st), AcceptedOnes(ops, st);
            && inTurn.members == InTurn(g.members, AllChanges(done), st.live)
            && inTurn.name == NameAfter(g.name, LastName(done))
            && inTurn.externalId == ExternalIdAfter(g.externalId, LastExternalId(done))
  {
    if ops != [] {
      var n := |ops| - 1;
      var before := OneByOne(g, ops[..n], st);
      OneByOneIs(g, ops[..n], st);
      OneRequest(before, ops[n], st.live);
      if Accepted(ops[n], st) {
        CompiledSnoc(AcceptedOnes(ops[..n], st), ops[n]);
        InTurnJoin(g.members, AllChanges(AcceptedOnes(ops[..n], st)), Changes(ops[n]), st.live);
      } else {
        assert AcceptedOnes(ops[..n], st) + [] == AcceptedOnes(ops[..n], st);
      }
    }
  }

  /** As one batch, all operations take effect, or none when the last name or external id is rejected. */
  function AppliedOnes(ops: seq<Operation>, st: Store): seq<Operation> {
    if Rejected(LastName(ops), LastExternalId(ops), st) then [] else ops
  }

  lemma RequestIs(g: Group, ops: seq<Operation>, st: Store)
    ensures var batch, done := Request(g, Compiled(ops), st), AppliedOnes(ops, st);
            && batch.members == Batch(g.members, AllChanges(done), st.live)
            && batch.name == NameAfter(g.name, LastName(done))
            && batch.externalId == ExternalIdAfter(g.externalId, LastExternalId(done))
  {
  }

  /**
   * A patch leaves the name, the external id and the members that its operations leave one by one if and
   * only if: the last name among those that take effect is to the group the same either way; so is the last
   * external id; and every user is a member either way.
   */
  lemma PatchIsOneByOneIff(g: Group, ops: seq<Operation>, st: Store)
    ensures var batch, inTurn := Request(g, Compiled(ops), st), OneByOne(g, ops, st);
            var applied, accepted := AppliedOnes(ops, st), AcceptedOnes(ops, st);
            && (batch.name == inTurn.name <==>
                  NameAfter(g.name, LastName(applied)) == NameAfter(g.name, LastName(accepted)))
            && (batch.externalId == inTurn.externalId <==>
                  ExternalIdAfter(g.externalId, LastExternalId(applied)) ==
                  ExternalIdAfter(g.externalId, LastExternalId(accepted)))
            && (batch.members == inTurn.members <==>
                  forall id :: InBatch(AllChanges(applied), id, id in g.members, id in st.live) <==>
                               AtEnd(AllChanges(accepted), id, id in g.members, id in st.live))
  {
    var batch, inTurn := Request(g, Compiled(ops), st), OneByOne(g, ops, st);
    OneByOneIs(g, ops, st);
    RequestIs(g, ops, st);
    forall id
      ensures (id in batch.members <==> InBatch(AllChanges(AppliedOnes(ops, st)), id, id in g.members, id in st.live))
      ensures (id in inTurn.members <==> AtEnd(AllChanges(AcceptedOnes(ops, st)), id, id in g.members, id in st.live))
    {
      BatchIs(g.members, AllChanges(AppliedOnes(ops, st)), st.live, id);
      InTurnIs(g.members, AllChanges(AcceptedOnes(ops, st)), st.live, id);
    }
  }

  /** The condition for a whole tenant's groups, known from the operations and the store alone. */
  ghost predicate Compatible(ops: seq<Operation>, st: Store) {
    var applied, accepted := AppliedOnes(ops, st), AcceptedOnes(ops, st);
    && LastName(applied) == LastName(accepted) && LastExternalId(applied) == LastExternalId(accepted)
    && forall id, was :: InBatch(AllChanges(applied), id, was, id in st.live) <==>
                         AtEnd(AllChanges(accepted), id, was, id in st.live)
  }

  ghost predicate SameOn(g: Group, ops: seq<Operation>, st: Store) {
    Request(g, Compiled(ops), st) == OneByOne(g, ops, st)
  }

  /** A patch does to every group what its operations do one by one, if and only if they are compatible. */
  lemma AlwaysOneByOneIff(ops: seq<Operation>, st: Store)
    ensures (forall g :: SameOn(g, ops, st)) <==> Compatible(ops, st)
  {
    var applied, accepted := AppliedOnes(ops, st), AcceptedOnes(ops, st);
    if Compatible(ops, st) {
      forall g ensures SameOn(g, ops, st) {
        PatchIsOneByOneIff(g, ops, st);
      }
    }
    if forall g :: SameOn(g, ops, st) {
      SameNames(ops, st);
      forall id, was
        ensures InBatch(AllChanges(applied), id, was, id in st.live) <==>
                AtEnd(AllChanges(accepted), id, was, id in st.live)
      {
        var g := Group("", None, if was then {id} else {});
        assert SameOn(g, ops, st);
        PatchIsOneByOneIff(g, ops, st);
      }
    }
  }

  /** Names and external ids that agree on every group are the same. */
  lemma SameNames(ops: seq<Operation>, st: Store)
    requires forall g :: SameOn(g, ops, st)
    ensures LastName(AppliedOnes(ops, st)) == LastName(AcceptedOnes(ops, st))
    ensures LastExternalId(AppliedOnes(ops, st)) == LastExternalId(AcceptedOnes(ops, st))
  {
    var a, b := LastName(AppliedOnes(ops, st)), LastName(AcceptedOnes(ops, st));
    var c, d := LastExternalId(AppliedOnes(ops, st)), LastExternalId(AcceptedOnes(ops, st));
    forall name: string, e: string
      ensures NameAfter(name, a) == NameAfter(name, b) && ExternalIdAfter(Some(e), c) == ExternalIdAfter(Some(e), d)
    {
      var g := Group(name, Some(e), {});
      assert SameOn(g, ops, st);
      PatchIsOneByOneIff(g, ops, st);
    }
    var other := (if a.Some? then a.value else "") + (if b.Some? then b.value else "") + "x";
    assert NameAfter(other, a) == NameAfter(other, b);
    var otherId := (if c.Some? then c.value else "") + (if d.Some? then d.value else "") + "x";
    assert ExternalIdAfter(Some(otherId), c) == ExternalIdAfter(Some(otherId), d);
  }

  // ---------------------------------------------------------------------------------------
  // When no operation is rejected
  // ---------------------------------------------------------------------------------------

  lemma {:induction false} LastIsSome(ops: seq<Operation>, st: Store)
    requires forall i :: 0 <= i < |ops| ==> Accepted(ops[i], st)
    ensures AcceptedOnes(ops, st) == ops
    ensures !Rejected(LastName(ops), None, st) && !Rejected(None, LastExternalId(ops), st)
  {
    if ops != [] {
      LastIsSome(ops[..|ops| - 1], st);
      assert ops == ops[..|ops| - 1] + [ops[|ops| - 1]];
    }
  }

  /**
   * When no operation would be rejected alone, the name and the external id agree, and the members agree,
   * whatever they were, if and only if the changes are order free.
   */
  lemma AcceptedIsOneByOneIff(g: Group, ops: seq<Operation>, st: Store)
    requires forall i :: 0 <= i < |ops| ==> Accepted(ops[i], st)
    ensures var batch, inTurn := Request(g, Compiled(ops), st), OneByOne(g, ops, st);
            && batch.name == inTurn.name && batch.externalId == inTurn.externalId
            && (batch.members == inTurn.members <==> OrderFree(AllChanges(ops), st.live))
  {
    LastIsSome(ops, st);
    OneByOneIs(g, ops, st);
    RequestIs(g, ops, st);
    BatchIsInTurnIff(g.members, AllChanges(ops), st.live);
  }

  // ---------------------------------------------------------------------------------------
  // One atomic request, its operations in sequence
  // ---------------------------------------------------------------------------------------

  predicate AllAccepted(ops: seq<Operation>, st: Store) {
    forall i :: 0 <= i < |ops| ==> Accepted(ops[i], st)
  }

  /** Section 3.5.2 of RFC 7644: the operations in sequence, and the group as it was if one of them fails. */
  function Atomic(g: Group, ops: seq<Operation>, st: Store): Group {
    if AllAccepted(ops, st) then OneByOne(g, ops, st) else g
  }

  /** A refused operation sets something, so the last of its kind does. */
  lemma {:induction false} RefusedIsSet(ops: seq<Operation>, st: Store)
    requires !AllAccepted(ops, st)
    ensures LastName(ops).Some? || LastExternalId(ops).Some?
  {
    if AllAccepted(ops[..|ops| - 1], st) {
      assert forall i :: 0 <= i < |ops| - 1 ==> ops[i] == ops[..|ops| - 1][i];
    } else {
      RefusedIsSet(ops[..|ops| - 1], st);
    }
  }

  /**
   * When every operation is accepted alone, a patch leaves the name and the external id of the sequence, and
   * its members exactly if the changes are order free.  When one is refused it leaves the group as the
   * sequence does if its own update is refused, and otherwise exactly what it does not change.
   */
  lemma AtomicIff(g: Group, ops: seq<Operation>, st: Store)
    ensures var batch, atomic := Request(g, Compiled(ops), st), Atomic(g, ops, st);
            if AllAccepted(ops, st) then
              && batch.name == atomic.name && batch.externalId == atomic.externalId
              && (batch.members == atomic.members <==> OrderFree(AllChanges(ops), st.live))
            else if Rejected(LastName(ops), LastExternalId(ops), st) then batch == atomic == g
            else
              && (batch.name == atomic.name <==> NameAfter(g.name, LastName(ops)) == g.name)
              && (batch.externalId == atomic.externalId <==>
                  ExternalIdAfter(g.externalId, LastExternalId(ops)) == g.externalId)
              && (batch.members == atomic.members <==>
                    forall id :: InBatch(AllChanges(ops), id, id in g.members, id in st.live) <==> id in g.members)
  {
    if AllAccepted(ops, st) {
      AcceptedIsOneByOneIff(g, ops, st);
    } else {
      forall id
        ensures id in Batch(g.members, AllChanges(ops), st.live) <==>
                InBatch(AllChanges(ops), id, id in g.members, id in st.live)
      {
        BatchIs(g.members, AllChanges(ops), st.live, id);
      }
      RequestIs(g, ops, st);
    }
  }

  /**
   * A patch does to every group what the sequence does, if and only if: either no operation is refused and
   * the changes are order free, or one is and so is the update with the last name and the last external id.
   */
  lemma AlwaysAtomicIff(ops: seq<Operation>, st: Store)
    ensures (forall g :: Request(g, Compiled(ops), st) == Atomic(g, ops, st)) <==>
            if AllAccepted(ops, st) then OrderFree(AllChanges(ops), st.live)
            else Rejected(LastName(ops), LastExternalId(ops), st)
  {
    forall g ensures (AllAccepted(ops, st) && OrderFree(AllChanges(ops), st.live)) ||
                     (!AllAccepted(ops, st) && Rejected(LastName(ops), LastExternalId(ops), st)) ==>
                     Request(g, Compiled(ops), st) == Atomic(g, ops, st)
    {
      AtomicIff(g, ops, st);
    }
    var g := ChangedBy(LastName(ops), LastExternalId(ops));
    AtomicIff(g, ops, st);
    if !AllAccepted(ops, st) {
      RefusedIsSet(ops, st);
    }
  }

  /** A group that a patch with these attributes changes. */
  function ChangedBy(name: Option<string>, externalId: Option<string>): Group {
    Group(if name.Some? then name.value + "x" else "",
          Some(if externalId.Some? then externalId.value + "x" else "x"), {})
  }

  /** A refused external id that a later operation replaces goes unnoticed. */
  lemma ReplacedRefusalStands(g: Group, e: string, free: string, st: Store)
    requires e in st.taken && e != "" && free !in st.taken && free != "" && st.idFits(free) &&
             g.externalId != Some(free)
    ensures var ops := [SetId(e), SetId(free)];
            Atomic(g, ops, st) == g && Request(g, Compiled(ops), st).externalId == Some(free)
  {
    var ops := [SetId(e), SetId(free)];
    assert !Accepted(ops[0], st);
    TwoLasts(SetId(e), SetId(free));
    RequestIs(g, ops, st);
  }

  lemma TwoLasts(a: Operation, b: Operation)
    ensures LastName([a, b]) == Last(NameIn(a), NameIn(b))
    ensures LastExternalId([a, b]) == Last(ExternalIdIn(a), ExternalIdIn(b))
  {
    assert [a, b][..1] == [a] && [a][..0] == [];
    assert LastName([a]) == Last(LastName([]), NameIn(a));
    assert LastExternalId([a]) == Last(LastExternalId([]), ExternalIdIn(a));
  }

  /** Clearing comes first, and nothing is removed and later added. */
  predicate InBatchOrder(changes: seq<Change>) {
    forall i, j :: 0 <= i < j < |changes| ==>
      changes[j] != Clear && (changes[i].RemoveOne? && changes[j].AddOne? ==> changes[i].id != changes[j].id)
  }

  /** What an identity provider may do to be safe. */
  lemma BatchOrderIsOrderFree(changes: seq<Change>, live: set<Id>)
    requires InBatchOrder(changes)
    ensures OrderFree(changes, live)
  {
    forall k | 0 <= k < |changes| && changes[k].AddOne?
      ensures AddStands(changes, changes[k].id) <==> RemoveOne(changes[k].id) !in changes
    {
      var id := changes[k].id;
      if RemoveOne(id) in changes {
        var r :| 0 <= r < |changes| && changes[r] == RemoveOne(id);
        forall m | 0 <= m < |changes| && changes[m] == AddOne(id) ensures m < r && TakesOut(changes[r], id) {
        }
      } else {
        forall i | k < i < |changes| ensures !TakesOut(changes[i], id) {
        }
      }
    }
  }

  /** Members other than those there before are live users of the tenant. */
  lemma OnlyLiveAdded(g: Group, ops: seq<Operation>, st: Store)
    ensures Request(g, Compiled(ops), st).members <= g.members + st.live
  {
  }

  // ---------------------------------------------------------------------------------------
  // Inputs on which they differ
  // ---------------------------------------------------------------------------------------

  /** Removing a user and adding him again loses him. */
  lemma RemoveThenAddDiffers(g: Group, x: Id, st: Store)
    requires x in st.live
    ensures var ops := [Operation(Remove, Members, Ref(Some(x))), Operation(Add, Members, Ref(Some(x)))];
            x in OneByOne(g, ops, st).members && x !in Request(g, Compiled(ops), st).members
  {
    var a, b := Operation(Remove, Members, Ref(Some(x))), Operation(Add, Members, Ref(Some(x)));
    var changes := [RemoveOne(x), AddOne(x)];
    TwoOperations(a, b);
    OneRef(Remove, x);
    OneRef(Add, x);
    assert Changes(a) + Changes(b) == changes;
    assert changes[1] == AddOne(x) && changes[0] == RemoveOne(x);
    BothMembers(g, [a, b], x, st);
  }

  lemma AddedThenReplaced(x: Id, y: Id, was: bool)
    requires x != y
    ensures InBatch([AddOne(x), Clear, AddOne(y)], x, was, true) && !AtEnd([AddOne(x), Clear, AddOne(y)], x, was, true)
  {
    var changes := [AddOne(x), Clear, AddOne(y)];
    assert changes[0] == AddOne(x) && changes[1] == Clear && changes[2] == AddOne(y);
  }

  /** Adding a user and then replacing the members by others keeps him. */
  lemma AddThenReplaceDiffers(g: Group, x: Id, y: Id, st: Store)
    requires x in st.live && x != y
    ensures var ops := [Operation(Add, Members, Ref(Some(x))), Operation(Replace, Members, Ref(Some(y)))];
            x !in OneByOne(g, ops, st).members && x in Request(g, Compiled(ops), st).members
  {
    var a, b := Operation(Add, Members, Ref(Some(x))), Operation(Replace, Members, Ref(Some(y)));
    TwoOperations(a, b);
    OneRef(Add, x);
    OneRef(Replace, y);
    assert Changes(a) + Changes(b) == [AddOne(x), Clear, AddOne(y)];
    AddedThenReplaced(x, y, x in g.members);
    BothMembers(g, [a, b], x, st);
  }

  /** Operations that set no attribute are never rejected. */
  lemma {:induction false} MembersOnly(ops: seq<Operation>, st: Store)
    requires forall i :: 0 <= i < |ops| ==> ops[i].path.Members?
    ensures LastName(ops).None? && LastExternalId(ops).None? && AcceptedOnes(ops, st) == ops
  {
    if ops != [] {
      MembersOnly(ops[..|ops| - 1], st);
      assert ops == ops[..|ops| - 1] + [ops[|ops| - 1]];
    }
  }

  /** Membership of one user either way, for operations that set no attribute. */
  lemma BothMembers(g: Group, ops: seq<Operation>, x: Id, st: Store)
    requires forall i :: 0 <= i < |ops| ==> ops[i].path.Members?
    ensures x in Request(g, Compiled(ops), st).members <==> InBatch(AllChanges(ops), x, x in g.members, x in st.live)
    ensures x in OneByOne(g, ops, st).members <==> AtEnd(AllChanges(ops), x, x in g.members, x in st.live)
  {
    MembersOnly(ops, st);
    OneByOneIs(g, ops, st);
    RequestIs(g, ops, st);
    BatchIs(g.members, AllChanges(ops), st.live, x);
    InTurnIs(g.members, AllChanges(ops), st.live, x);
  }

  function SetId(e: string): Operation {
    Operation(Replace, ExternalId, Text(e))
  }

  /** An external id that another group holds takes back a rename sent with it. */
  lemma TakenIdTakesBackName(g: Group, name: string, e: string, st: Store)
    requires e in st.taken && e != "" && st.nameFits(name) && name != g.name
    ensures var ops := [Operation(Replace, DisplayName, Text(name)), SetId(e)];
            && OneByOne(g, ops, st).name == name && Request(g, Compiled(ops), st).name == g.name
            && OrderFree(AllChanges(ops), st.live)
  {
    var rename := Operation(Replace, DisplayName, Text(name));
    FirstAlone(rename, SetId(e), st);
    OneByOneIs(g, [rename, SetId(e)], st);
    RequestIs(g, [rename, SetId(e)], st);
  }

  /** It takes back an added member too, though the changes are order free. */
  lemma TakenIdTakesBackMember(g: Group, x: Id, e: string, st: Store)
    requires e in st.taken && e != "" && x in st.live && x !in g.members
    ensures var ops := [Operation(Add, Members, Ref(Some(x))), SetId(e)];
            && x in OneByOne(g, ops, st).members && x !in Request(g, Compiled(ops), st).members
            && OrderFree(AllChanges(ops), st.live)
  {
    var add := Operation(Add, Members, Ref(Some(x)));
    FirstAlone(add, SetId(e), st);
    OneRef(Add, x);
    OneByOneIs(g, [add, SetId(e)], st);
    RequestIs(g, [add, SetId(e)], st);
    assert [AddOne(x)][0] == AddOne(x);
    InTurnIs(g.members, [AddOne(x)], st.live, x);
  }

  /** Of two operations the second is rejected, alone and as the last of the batch. */
  lemma FirstAlone(a: Operation, b: Operation, st: Store)
    requires Accepted(a, st) && !Accepted(b, st) && NameIn(b).None? && Changes(b) == []
    ensures AcceptedOnes([a, b], st) == [a] && AppliedOnes([a, b], st) == []
    ensures LastName([a]) == NameIn(a) && LastExternalId([a]) == ExternalIdIn(a)
    ensures AllChanges([a]) == Changes(a) && AllChanges([a, b]) == Changes(a)
  {
    TwoOperations(a, b);
    assert [a, b][..1] == [a] && [a][..0] == [];
    assert LastExternalId([a, b]) == ExternalIdIn(b);
    assert AcceptedOnes([a], st) == [] + [a];
    assert Changes(a) + [] == Changes(a) && [] + Changes(a) == Changes(a);
  }

  /** The changes of an operation on members with one well-formed reference. */
  function RefChanges(verb: Verb, id: Id): seq<Change> {
    match verb
    case Replace => [Clear, AddOne(id)]
    case Add => [AddOne(id)]
    case Remove => [RemoveOne(id)]
    case OtherVerb => []
  }

  lemma TwoOperations(a: Operation, b: Operation)
    ensures AllChanges([a, b]) == Changes(a) + Changes(b)
  {
    assert [a, b][..1] == [a] && [a][..0] == [];
    assert AllChanges([a]) == [] + Changes(a) == Changes(a);
  }

  lemma OneRef(verb: Verb, id: Id)
    ensures Changes(Operation(verb, Members, Ref(Some(id)))) == RefChanges(verb, id)
  {
    var refs: seq<Option<Id>> := [Some(id)];
    assert refs[..0] == [] && WellFormed(refs) == WellFormed([]) + [id];
    assert MemberRefs(Ref(Some(id))) == [id];
    assert AddAll([id]) == [AddOne(id)] && RemoveAll([id]) == [RemoveOne(id)];
  }
}
