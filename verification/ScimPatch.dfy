/** SCIM group PATCH: a list of operations compiled to one batch, against applying them one by one. */
module ScimPatch {
  import opened Wrappers

  type Id = nat

  datatype Verb = Add | Replace | Remove | OtherVerb

  datatype Path = DisplayName | ExternalId | Members | MemberFilter(id: Option<Id>) | Whole | OtherPath

  /** An operation's value as decoding finds it; references are ids, None where one is malformed. */
  datatype Value =
    | Absent
    | Null
    | Text(text: string)
    | Refs(refs: seq<Option<Id>>)
    | Ref(ref: Option<Id>)
    | Attributes(displayName: Option<string>, externalId: Option<string>, members: Option<seq<Option<Id>>>)
    | OtherValue

  datatype Operation = Operation(verb: Verb, path: Path, value: Value)

  /** What the operations come to: clear the members, then add, then remove. */
  datatype GroupPatch = GroupPatch(
    setName: Option<string>, setExternalId: Option<string>, add: seq<Id>, remove: seq<Id>, replaceMembers: bool)

  datatype Group = Group(name: string, externalId: Option<string>, members: set<Id>)

  /**
   * What a request on one group of a tenant meets: the undeleted users of the tenant, the external ids
   * its other groups hold, and what text the two columns take.
   */
  datatype Store = Store(live: set<Id>, taken: set<string>, nameFits: string -> bool, idFits: string -> bool)

  // ---------------------------------------------------------------------------------------
  // What one operation asks for
  // ---------------------------------------------------------------------------------------

  datatype Change = Clear | AddOne(id: Id) | RemoveOne(id: Id)

  function WellFormed(refs: seq<Option<Id>>): seq<Id> {
    if refs == [] then []
    else WellFormed(refs[..|refs| - 1]) + if refs[|refs| - 1].Some? then [refs[|refs| - 1].value] else []
  }

  /** decodeMemberRefs: a list of references, or a single one; anything else is none. */
  function MemberRefs(v: Value): seq<Id> {
    match v
    case Refs(refs) => WellFormed(refs)
    case Ref(ref) => WellFormed([ref])
    case _ => []
  }

  function AddAll(ids: seq<Id>): (r: seq<Change>)
    ensures |r| == |ids| && forall i :: 0 <= i < |ids| ==> r[i] == AddOne(ids[i])
  {
    seq(|ids|, i requires 0 <= i < |ids| => AddOne(ids[i]))
  }

  function RemoveAll(ids: seq<Id>): (r: seq<Change>)
    ensures |r| == |ids| && forall i :: 0 <= i < |ids| ==> r[i] == RemoveOne(ids[i])
  {
    seq(|ids|, i requires 0 <= i < |ids| => RemoveOne(ids[i]))
  }

  /** The membership changes of one operation, in order (section 3.5.2 of RFC 7644). */
  function Changes(op: Operation): seq<Change> {
    match op.path
    case Members =>
      (match op.verb
       case Replace => [Clear] + AddAll(MemberRefs(op.value))
       case Add => AddAll(MemberRefs(op.value))
       case Remove => if op.value.Absent? || op.value.Null? then [Clear] else RemoveAll(MemberRefs(op.value))
       case OtherVerb => [])
    case MemberFilter(id) =>
      if id.None? then []
      else if op.verb.Remove? then [RemoveOne(id.value)]
      else if op.verb.Add? then [AddOne(id.value)]
      else []
    case Whole =>
      if !op.value.Attributes? || op.value.members.None? then []
      else if op.verb.Add? then AddAll(WellFormed(op.value.members.value))
      else [Clear] + AddAll(WellFormed(op.value.members.value))
    case _ => []
  }

  /** A string read from a value; null leaves it empty. */
  function TextOf(v: Value): Option<string> {
    match v
    case Text(text) => Some(text)
    case Null => Some("")
    case _ => None
  }

  function NameIn(op: Operation): Option<string> {
    if op.path.DisplayName? && (op.verb.Add? || op.verb.Replace?) then TextOf(op.value)
    else if op.path.Whole? && op.value.Attributes? then op.value.displayName
    else None
  }

  function ExternalIdIn(op: Operation): Option<string> {
    if op.path.ExternalId? && (op.verb.Add? || op.verb.Replace?) then TextOf(op.value)
    else if op.path.Whole? && op.value.Attributes? then op.value.externalId
    else None
  }

  // ---------------------------------------------------------------------------------------
  // The compiler
  // ---------------------------------------------------------------------------------------

  function AllChanges(ops: seq<Operation>): seq<Change> {
    if ops == [] then [] else AllChanges(ops[..|ops| - 1]) + Changes(ops[|ops| - 1])
  }

  function Last(a: Option<string>, b: Option<string>): Option<string> {
    if b.Some? then b else a
  }

  function LastName(ops: seq<Operation>): Option<string> {
    if ops == [] then None else Last(LastName(ops[..|ops| - 1]), NameIn(ops[|ops| - 1]))
  }

  function LastExternalId(ops: seq<Operation>): Option<string> {
    if ops == [] then None else Last(LastExternalId(ops[..|ops| - 1]), ExternalIdIn(ops[|ops| - 1]))
  }

  function Added(changes: seq<Change>): seq<Id> {
    if changes == [] then []
    else
      var last := changes[|changes| - 1];
      Added(changes[..|changes| - 1]) + if last.AddOne? then [last.id] else []
  }

  function Removed(changes: seq<Change>): seq<Id> {
    if changes == [] then []
    else
      var last := changes[|changes| - 1];
      Removed(changes[..|changes| - 1]) + if last.RemoveOne? then [last.id] else []
  }

  predicate Clears(changes: seq<Change>) {
    Clear in changes
  }

  function Compiled(ops: seq<Operation>): GroupPatch {
    var changes := AllChanges(ops);
    GroupPatch(LastName(ops), LastExternalId(ops), Added(changes), Removed(changes), Clears(changes))
  }

  lemma {:induction false} AddedJoin(a: seq<Change>, b: seq<Change>)
    ensures Added(a + b) == Added(a) + Added(b) && Removed(a + b) == Removed(a) + Removed(b)
  {
    if b == [] {
      assert a + b == a;
    } else {
      AddedJoin(a, b[..|b| - 1]);
      assert (a + b)[..|a + b| - 1] == a + b[..|b| - 1];
    }
  }

  lemma {:induction false} AddedAll(ids: seq<Id>)
    ensures Added(AddAll(ids)) == ids && Removed(AddAll(ids)) == []
    ensures Added(RemoveAll(ids)) == [] && Removed(RemoveAll(ids)) == ids
  {
    if ids != [] {
      var n := |ids| - 1;
      AddedAll(ids[..n]);
      assert AddAll(ids)[..n] == AddAll(ids[..n]) && RemoveAll(ids)[..n] == RemoveAll(ids[..n]);
      assert ids == ids[..n] + [ids[n]];
    }
  }

  lemma NoClear(ids: seq<Id>)
    ensures !Clears(AddAll(ids)) && !Clears(RemoveAll(ids))
  {
  }

  lemma ClearThenAdd(ids: seq<Id>)
    ensures Added([Clear] + AddAll(ids)) == ids && Removed([Clear] + AddAll(ids)) == [] && Clears([Clear] + AddAll(ids))
  {
    AddedJoin([Clear], AddAll(ids));
    AddedAll(ids);
    assert Added([Clear]) == Added([]) + [] && Removed([Clear]) == Removed([]) + [];
    assert ([Clear] + AddAll(ids))[0] == Clear;
  }

  method DecodeRefs(refs: seq<Option<Id>>) returns (ids: seq<Id>)
    ensures ids == WellFormed(refs)
  {
    ids := [];
    var i := 0;
    while i < |refs|
      invariant 0 <= i <= |refs| && ids == WellFormed(refs[..i])
    {
      assert refs[..i + 1][..i] == refs[..i];
      if refs[i].Some? {
        ids := ids + [refs[i].value];
      }
      i := i + 1;
    }
    assert refs[..|refs|] == refs;
  }

  /** The references that are well formed, in their order. */
  lemma {:induction false} WellFormedIs(refs: seq<Option<Id>>)
    ensures |WellFormed(refs)| <= |refs|
    ensures forall id :: id in WellFormed(refs) <==> Some(id) in refs
    ensures (forall i :: 0 <= i < |refs| ==> refs[i].Some?) ==>
              |WellFormed(refs)| == |refs| && forall i :: 0 <= i < |refs| ==> Some(WellFormed(refs)[i]) == refs[i]
  {
    if refs != [] {
      WellFormedIs(refs[..|refs| - 1]);
      assert refs == refs[..|refs| - 1] + [refs[|refs| - 1]];
    }
  }

  method DecodeMemberRefs(v: Value) returns (ids: seq<Id>)
    ensures ids == MemberRefs(v)
    ensures forall id :: id in ids <==> (v.Refs? && Some(id) in v.refs) || (v.Ref? && v.ref == Some(id))
  {
    if v.Refs? {
      WellFormedIs(v.refs);
    } else if v.Ref? {
      WellFormedIs([v.ref]);
    }
    match v {
      case Refs(refs) => ids := DecodeRefs(refs);
      case Ref(ref) => ids := DecodeRefs([ref]);
      case _ => ids := [];
    }
  }

  /** The patch after one more operation. */
  predicate Extends(p: GroupPatch, op: Operation, q: GroupPatch) {
    && q.setName == Last(p.setName, NameIn(op)) && q.setExternalId == Last(p.setExternalId, ExternalIdIn(op))
    && q.add == p.add + Added(Changes(op)) && q.remove == p.remove + Removed(Changes(op))
    && q.replaceMembers == (p.replaceMembers || Clears(Changes(op)))
  }

  /** The patch has these additions and removals more, and clears the members if it did or this does. */
  predicate Grows(p: GroupPatch, q: GroupPatch, add: seq<Id>, remove: seq<Id>, clears: bool) {
    q.add == p.add + add && q.remove == p.remove + remove && q.replaceMembers == (p.replaceMembers || clears)
  }

  /** What each operation does to the members of the patch, path by path and verb by verb. */
  predicate MembersMean(p: GroupPatch, op: Operation, q: GroupPatch) {
    && (op.path == Members && op.verb == Replace ==> Grows(p, q, MemberRefs(op.value), [], true))
    && (op.path == Members && op.verb == Add ==> Grows(p, q, MemberRefs(op.value), [], false))
    && (op.path == Members && op.verb == Remove && op.value in {Absent, Null} ==> Grows(p, q, [], [], true))
    && (op.path == Members && op.verb == Remove && op.value !in {Absent, Null} ==>
          Grows(p, q, [], MemberRefs(op.value), false))
    && (op.path.MemberFilter? && op.path.id.Some? && op.verb == Remove ==> Grows(p, q, [], [op.path.id.value], false))
    && (op.path.MemberFilter? && op.path.id.Some? && op.verb == Add ==> Grows(p, q, [op.path.id.value], [], false))
    && (op.path.MemberFilter? && (op.path.id.None? || op.verb !in {Add, Remove}) ==> Grows(p, q, [], [], false))
    && (op.path == Whole && op.value.Attributes? && op.value.members.Some? ==>
          Grows(p, q, WellFormed(op.value.members.value), [], op.verb != Add))
    && (op.path == Whole && (!op.value.Attributes? || op.value.members.None?) ==> Grows(p, q, [], [], false))
    && ((op.path == Members && op.verb == OtherVerb) || op.path in {DisplayName, ExternalId, OtherPath} ==>
          Grows(p, q, [], [], false))
  }

  /** The attributes it sets: by path when added or replaced by a string or null, or without a path. */
  predicate AttributesMean(p: GroupPatch, op: Operation, q: GroupPatch) {
    var sets := op.verb in {Add, Replace} && (op.value.Text? || op.value.Null?);
    var text := if op.value.Text? then op.value.text else "";
    && q.setName == (if op.path == DisplayName && sets then Some(text)
                     else if op.path == Whole && op.value.Attributes? && op.value.displayName.Some?
                     then op.value.displayName
                     else p.setName)
    && q.setExternalId == (if op.path == ExternalId && sets then Some(text)
                           else if op.path == Whole && op.value.Attributes? && op.value.externalId.Some?
                           then op.value.externalId
                           else p.setExternalId)
  }

  lemma ExtendsMeans(p: GroupPatch, op: Operation, q: GroupPatch)
    requires Extends(p, op, q)
    ensures MembersMean(p, op, q) && AttributesMean(p, op, q)
  {
    match op.path {
      case Members => MemberChanges(op);
      case MemberFilter(id) =>
        if id.Some? {
          OneChange(id.value);
        }
      case Whole =>
        if op.value.Attributes? && op.value.members.Some? {
          WholeChanges(op);
        }
      case _ =>
    }
  }

  /** The body of the compiler's loop. */
  method CompileOne(p: GroupPatch, op: Operation) returns (q: GroupPatch)
    ensures Extends(p, op, q) && MembersMean(p, op, q) && AttributesMean(p, op, q)
  {
    q := CompilePath(p, op);
    ExtendsMeans(p, op, q);
  }

  /** By path. */
  method CompilePath(p: GroupPatch, op: Operation) returns (q: GroupPatch)
    ensures Extends(p, op, q)
  {
    match op.path {
      case DisplayName =>
        q := p;
        if (op.verb.Add? || op.verb.Replace?) && TextOf(op.value).Some? {
          q := p.(setName := TextOf(op.value));
        }
      case ExternalId =>
        q := p;
        if (op.verb.Add? || op.verb.Replace?) && TextOf(op.value).Some? {
          q := p.(setExternalId := TextOf(op.value));
        }
      case Members => q := CompileMembers(p, op);
      case MemberFilter(id) => q := CompileFilter(p, op);
      case Whole => q := CompileWhole(p, op);
      case OtherPath => q := p;
    }
  }

  /** What an operation on members adds and removes. */
  lemma MemberChanges(op: Operation)
    requires op.path.Members?
    ensures var refs, all := MemberRefs(op.value), op.value.Absent? || op.value.Null?;
            && Added(Changes(op)) == (if op.verb.Replace? || op.verb.Add? then refs else [])
            && Removed(Changes(op)) == (if op.verb.Remove? && !all then refs else [])
            && Clears(Changes(op)) == (op.verb.Replace? || (op.verb.Remove? && all))
  {
    ClearThenAdd(MemberRefs(op.value));
    AddedAll(MemberRefs(op.value));
    NoClear(MemberRefs(op.value));
    ClearAlone();
  }

  lemma ClearAlone()
    ensures Added([Clear]) == [] && Removed([Clear]) == [] && Clears([Clear])
  {
    assert [Clear] + AddAll([]) == [Clear];
    ClearThenAdd([]);
  }

  method CompileMembers(p: GroupPatch, op: Operation) returns (q: GroupPatch)
    requires op.path.Members?
    ensures Extends(p, op, q)
  {
    MemberChanges(op);
    var refs := DecodeMemberRefs(op.value);
    match op.verb {
      case Replace => q := p.(replaceMembers := true, add := p.add + refs);
      case Add => q := p.(add := p.add + refs);
      case Remove =>
        if op.value.Absent? || op.value.Null? {
          q := p.(replaceMembers := true);
        } else {
          q := p.(remove := p.remove + refs);
        }
      case OtherVerb => q := p;
    }
  }

  lemma OneChange(id: Id)
    ensures Added([AddOne(id)]) == [id] && Removed([AddOne(id)]) == [] && !Clears([AddOne(id)])
    ensures Added([RemoveOne(id)]) == [] && Removed([RemoveOne(id)]) == [id] && !Clears([RemoveOne(id)])
  {
    AddedAll([id]);
    assert AddAll([id]) == [AddOne(id)] && RemoveAll([id]) == [RemoveOne(id)];
  }

  method CompileFilter(p: GroupPatch, op: Operation) returns (q: GroupPatch)
    requires op.path.MemberFilter?
    ensures Extends(p, op, q)
  {
    q := p;
    if op.path.id.Some? {
      var id := op.path.id.value;
      OneChange(id);
      if op.verb.Remove? {
        q := p.(remove := p.remove + [id]);
      } else if op.verb.Add? {
        q := p.(add := p.add + [id]);
      }
    }
  }

  /** What an operation without a path adds. */
  lemma WholeChanges(op: Operation)
    requires op.path.Whole? && op.value.Attributes? && op.value.members.Some?
    ensures Added(Changes(op)) == WellFormed(op.value.members.value) && Removed(Changes(op)) == []
    ensures Clears(Changes(op)) == !op.verb.Add?
  {
    ClearThenAdd(WellFormed(op.value.members.value));
    AddedAll(WellFormed(op.value.members.value));
    NoClear(WellFormed(op.value.members.value));
  }

  method CompileWhole(p: GroupPatch, op: Operation) returns (q: GroupPatch)
    requires op.path.Whole?
    ensures Extends(p, op, q)
  {
    q := p;
    if op.value.Attributes? {
      if op.value.displayName.Some? {
        q := q.(setName := op.value.displayName);
      }
      if op.value.externalId.Some? {
        q := q.(setExternalId := op.value.externalId);
      }
      if op.value.members.Some? {
        WholeChanges(op);
        var refs := DecodeRefs(op.value.members.value);
        if op.verb.Add? {
          q := q.(add := q.add + refs);
        } else {
          q := q.(replaceMembers := true, add := q.add + refs);
        }
      }
    }
  }

  method ParseGroupPatch(ops: seq<Operation>) returns (p: GroupPatch)
    ensures p == Compiled(ops)
  {
    p := GroupPatch(None, None, [], [], false);
    var i := 0;
    while i < |ops|
      invariant 0 <= i <= |ops| && p == Compiled(ops[..i])
    {
      CompiledSnoc(ops[..i], ops[i]);
      assert ops[..i + 1] == ops[..i] + [ops[i]];
      p := CompileOne(p, ops[i]);
      i := i + 1;
    }
    assert ops[..|ops|] == ops;
  }

  lemma CompiledSnoc(ops: seq<Operation>, op: Operation)
    ensures Extends(Compiled(ops), op, Compiled(ops + [op]))
    ensures AllChanges(ops + [op]) == AllChanges(ops) + Changes(op)
  {
    assert (ops + [op])[..|ops|] == ops;
    AddedJoin(AllChanges(ops), Changes(op));
  }

  // ---------------------------------------------------------------------------------------
  // Applying a patch
  // ---------------------------------------------------------------------------------------

  function Elements(ids: seq<Id>): set<Id> {
    set id | id in ids
  }

  /** Only live users of the tenant are ever added. */
  function PatchedMembers(members: set<Id>, p: GroupPatch, live: set<Id>): set<Id> {
    ((if p.replaceMembers then {} else members) + (Elements(p.add) * live)) - Elements(p.remove)
  }

  function NameAfter(name: string, given: Option<string>): string {
    if given.Some? then given.value else name
  }

  /** An empty external id is stored as none. */
  function ExternalIdAfter(externalId: Option<string>, given: Option<string>): Option<string> {
    if given.None? then externalId else if given.value == "" then None else given
  }

  function Patched(g: Group, p: GroupPatch, live: set<Id>): Group {
    Group(NameAfter(g.name, p.setName), ExternalIdAfter(g.externalId, p.setExternalId),
          PatchedMembers(g.members, p, live))
  }

  /** The update of the group row fails: a column does not take a text, or another group holds the external id. */
  predicate Rejected(setName: Option<string>, setExternalId: Option<string>, st: Store) {
    || (setName.Some? && !st.nameFits(setName.value))
    || (setExternalId.Some? && setExternalId.value != ""
        && (setExternalId.value in st.taken || !st.idFits(setExternalId.value)))
  }

  /** A request with a patch: all of it, or nothing when the update of the row fails. */
  function Request(g: Group, p: GroupPatch, st: Store): Group {
    if Rejected(p.setName, p.setExternalId, st) then g else Patched(g, p, st.live)
  }

  /** The update of group row id fails: an id in use by another group, or a text its column does not take. */
  ghost predicate UpdateFails(rows: map<Id, Group>, id: Id, setName: Option<string>, setExternalId: Option<string>,
                              nameFits: string -> bool, idFits: string -> bool)
  {
    || (setName.Some? && !nameFits(setName.value))
    || (setExternalId.Some? && setExternalId.value != "" && !idFits(setExternalId.value))
    || (setExternalId.Some? && setExternalId.value != "" &&
        exists i :: i in rows && i != id && rows[i].externalId == setExternalId)
  }

  /** A patched group: attributes as set, an empty external id as none; members cleared, added, removed. */
  ghost predicate PatchLeaves(g: Group, p: GroupPatch, live: set<Id>, h: Group) {
    && h.name == (match p.setName case None => g.name case Some(name) => name)
    && h.externalId == (match p.setExternalId
                        case None => g.externalId
                        case Some(e) => if e == "" then None else Some(e))
    && forall x :: x in h.members <==>
         x !in p.remove && ((x in p.add && x in live) || (x in g.members && !p.replaceMembers))
  }

  lemma PatchedLeaves(g: Group, p: GroupPatch, live: set<Id>)
    ensures PatchLeaves(g, p, live, Patched(g, p, live))
  {
  }

  datatype Reply = Done | NotFound | Failed

  /** The groups of one tenant, their external ids distinct. */
  class Groups {
    var rows: map<Id, Group>

    constructor ()
      ensures rows == map[] && UniqueIds()
    {
      rows := map[];
    }

    ghost predicate UniqueIds()
      reads this
    {
      forall i, j :: i in rows && j in rows && i != j && rows[i].externalId.Some? ==>
        rows[i].externalId != rows[j].externalId
    }

    /** The external ids of the other groups. */
    function Taken(id: Id): set<string>
      reads this
    {
      set i | i in rows && i != id && rows[i].externalId.Some? :: rows[i].externalId.value
    }

    function StoreFor(id: Id, live: set<Id>, nameFits: string -> bool, idFits: string -> bool): Store
      reads this
    {
      Store(live, Taken(id), nameFits, idFits)
    }

    /** touchGroupTx, when there is something to set; false when the update fails. */
    method TouchGroup(id: Id, setName: Option<string>, setExternalId: Option<string>, st: Store) returns (ok: bool)
      requires id in rows && UniqueIds() && st.taken == Taken(id)
      modifies this
      ensures ok <==> !Rejected(setName, setExternalId, st)
      ensures rows == if !ok then old(rows)
                      else old(rows)[id := old(rows)[id].(name := NameAfter(old(rows)[id].name, setName),
                                                          externalId := ExternalIdAfter(old(rows)[id].externalId,
                                                              setExternalId))]
      ensures UniqueIds()
    {
      if setName.Some? && !st.nameFits(setName.value) {
        return false;
      }
      if setExternalId.Some? && setExternalId.value != "" {
        if setExternalId.value in st.taken || !st.idFits(setExternalId.value) {
          return false;
        }
      }
      var g := rows[id];
      if setName.Some? {
        g := g.(name := setName.value);
      }
      if setExternalId.Some? {
        g := g.(externalId := if setExternalId.value == "" then None else setExternalId);
      }
      rows := rows[id := g];
      return true;
    }

    lemma FailsIs(id: Id, setName: Option<string>, setExternalId: Option<string>, st: Store)
      requires st.taken == Taken(id)
      ensures Rejected(setName, setExternalId, st) <==>
              UpdateFails(rows, id, setName, setExternalId, st.nameFits, st.idFits)
    {
      if setExternalId.Some? && setExternalId.value in st.taken {
        var i :| i in rows && i != id && rows[i].externalId.Some? && rows[i].externalId.value == setExternalId.value;
      }
    }

    /** The patch in one transaction. */
    method PatchGroup(id: Id, p: GroupPatch, live: set<Id>, nameFits: string -> bool, idFits: string -> bool)
      returns (reply: Reply)
      requires UniqueIds()
      modifies this
      ensures UniqueIds()
      ensures reply.NotFound? <==> id !in old(rows)
      ensures id in old(rows) ==>
                (reply.Failed? <==> Rejected(p.setName, p.setExternalId, old(StoreFor(id, live, nameFits, idFits))))
      ensures rows == if id !in old(rows) then old(rows)
                      else old(rows)[id := Request(old(rows)[id], p, old(StoreFor(id, live, nameFits, idFits)))]
      ensures reply.Failed? <==>
        id in old(rows) && UpdateFails(old(rows), id, p.setName, p.setExternalId, nameFits, idFits)
      ensures !reply.Done? ==> rows == old(rows)
      ensures reply.Done? ==> PatchLeaves(old(rows)[id], p, live, rows[id]) && rows == old(rows)[id := rows[id]]
    {
      if id in rows {
        FailsIs(id, p.setName, p.setExternalId, StoreFor(id, live, nameFits, idFits));
        PatchedLeaves(rows[id], p, live);
        assert rows[id := rows[id]] == rows;
      }
      if id !in rows {
        return NotFound;
      }
      if p.setName.Some? || p.setExternalId.Some? {
        var ok := TouchGroup(id, p.setName, p.setExternalId, StoreFor(id, live, nameFits, idFits));
        if !ok {
          assert rows[id := rows[id]] == rows;
          return Failed;
        }
      }
      var members := if p.replaceMembers then {} else rows[id].members;
      members := AddMembers(members, p.add, live);
      members := RemoveMembers(members, p.remove);
      rows := rows[id := rows[id].(members := members)];
      return Done;
    }

    /** A full replacement: name, external id and the whole member set. */
    method ReplaceGroup(id: Id, name: string, externalId: string, ids: seq<Id>, live: set<Id>,
                        nameFits: string -> bool, idFits: string -> bool)
      returns (reply: Reply)
      requires UniqueIds()
      modifies this
      ensures UniqueIds()
      ensures reply.NotFound? <==> id !in old(rows)
      ensures id in old(rows) ==>
                (reply.Failed? <==> Rejected(Some(name), Some(externalId), old(StoreFor(id, live, nameFits, idFits))))
      ensures rows == if reply.Done? then old(rows)[id := Replaced(name, externalId, ids, live)] else old(rows)
      ensures reply.Failed? <==>
        id in old(rows) && UpdateFails(old(rows), id, Some(name), Some(externalId), nameFits, idFits)
      ensures reply.Done? ==>
        && rows[id].name == name && rows[id].externalId == (if externalId == "" then None else Some(externalId))
        && forall x :: x in rows[id].members <==> x in ids && x in live
    {
      if id in rows {
        FailsIs(id, Some(name), Some(externalId), StoreFor(id, live, nameFits, idFits));
      }
      if id !in rows {
        return NotFound;
      }
      var ok := TouchGroup(id, Some(name), Some(externalId), StoreFor(id, live, nameFits, idFits));
      if !ok {
        return Failed;
      }
      var members := AddMembers({}, ids, live);
      assert members == Elements(ids) * live;
      rows := rows[id := rows[id].(members := members)];
      return Done;
    }
  }

  function Replaced(name: string, externalId: string, ids: seq<Id>, live: set<Id>): Group {
    Group(name, if externalId == "" then None else Some(externalId), Elements(ids) * live)
  }

  method AddMembers(members: set<Id>, ids: seq<Id>, live: set<Id>) returns (r: set<Id>)
    ensures r == members + (Elements(ids) * live)
  {
    r := members;
    var i := 0;
    while i < |ids|
      invariant 0 <= i <= |ids| && r == members + (Elements(ids[..i]) * live)
    {
      assert ids[..i + 1] == ids[..i] + [ids[i]];
      if ids[i] in live {
        r := r + {ids[i]};
      }
      i := i + 1;
    }
    assert ids[..|ids|] == ids;
  }

  method RemoveMembers(members: set<Id>, ids: seq<Id>) returns (r: set<Id>)
    ensures r == members - Elements(ids)
  {
    r := members;
    var i := 0;
    while i < |ids|
      invariant 0 <= i <= |ids| && r == members - Elements(ids[..i])
    {
      assert ids[..i + 1] == ids[..i] + [ids[i]];
      r := r - {ids[i]};
      i := i + 1;
    }
    assert ids[..|ids|] == ids;
  }

  // ---------------------------------------------------------------------------------------
  // One by one
  // ---------------------------------------------------------------------------------------

  function ApplyChange(members: set<Id>, c: Change, live: set<Id>): set<Id> {
    match c
    case Clear => {}
    case AddOne(id) => members + ({id} * live)
    case RemoveOne(id) => members - {id}
  }

  function InTurn(members: set<Id>, changes: seq<Change>, live: set<Id>): set<Id> {
    if changes == [] then members
    else ApplyChange(InTurn(members, changes[..|changes| - 1], live), changes[|changes| - 1], live)
  }

  /** The group after the operations, each sent as a request of its own; one that fails changes nothing. */
  function OneByOne(g: Group, ops: seq<Operation>, st: Store): Group {
    if ops == [] then g
    else Request(OneByOne(g, ops[..|ops| - 1], st), Compiled([ops[|ops| - 1]]), st)
  }

  /** Sent alone, the operation would not fail. */
  predicate Accepted(op: Operation, st: Store) {
    !Rejected(NameIn(op), ExternalIdIn(op), st)
  }

  /** The operations that would not fail alone. */
  function AcceptedOnes(ops: seq<Operation>, st: Store): seq<Operation> {
    if ops == [] then []
    else AcceptedOnes(ops[..|ops| - 1], st) + if Accepted(ops[|ops| - 1], st) then [ops[|ops| - 1]] else []
  }

  predicate TakesOut(c: Change, id: Id) {
    c == Clear || c == RemoveOne(id)
  }

  /** Some addition of the id is followed by nothing that takes it out. */
  predicate AddStands(changes: seq<Change>, id: Id) {
    exists k ::
      0 <= k < |changes| && changes[k] == AddOne(id) && forall i :: k < i < |changes| ==> !TakesOut(changes[i], id)
  }

  /** Each live id that is added either is never removed and an addition stands, or is removed and none does. */
  predicate OrderFree(changes: seq<Change>, live: set<Id>) {
    forall k :: 0 <= k < |changes| && changes[k].AddOne? && changes[k].id in live ==>
      (AddStands(changes, changes[k].id) <==> RemoveOne(changes[k].id) !in changes)
  }
}
