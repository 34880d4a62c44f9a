/** The split mode of tools/openapi-split/main.go, on alias-free documents. */
module OpenApiSplit {
  import opened Wrappers
  import opened YamlTree
  import opened OpenApiRefs

  // ---------------------------------------------------------------------------------------
  // Which file a path belongs to
  // ---------------------------------------------------------------------------------------

  const FILE_ORDER: seq<string> := ["auth", "management", "federation", "developer", "operations"]

  const ACCESS_TAGS: set<string> :=
    {"Auth", "RBAC", "ReBAC", "MFA", "Passkeys", "IP Rules", "Auth Policy", "Policy", "Threats"}
  const IDENTITY_TAGS: set<string> :=
    {"Users", "Tenants", "Groups", "Invites", "Verification", "Branding", "Domains"}
  const FEDERATION_TAGS: set<string> := {"OIDC", "SAML", "SCIM", "LDAP", "Social"}
  const DEVELOPER_TAGS: set<string> :=
    {"API Keys", "Webhooks", "Secrets", "Credentials", "Auth Hooks", "Agents"}
  const OPERATIONS_TAGS: set<string> :=
    {"Audit", "Analytics", "Billing", "GDPR", "Email Templates", "Data Retention", "Log Sinks",
     "Notifications", "Admin", "Health"}

  /** tagToFile. */
  function FileOf(tag: string): Option<string> {
    if tag in ACCESS_TAGS then Some("auth")
    else if tag in IDENTITY_TAGS then Some("management")
    else if tag in FEDERATION_TAGS then Some("federation")
    else if tag in DEVELOPER_TAGS then Some("developer")
    else if tag in OPERATIONS_TAGS then Some("operations")
    else None
  }

  /** fileTitles. */
  function TitleOf(file: string): string {
    if file == "auth" then "Qeet ID \U{2014} Authentication & Access API"
    else if file == "management" then "Qeet ID \U{2014} Identity Management API"
    else if file == "federation" then "Qeet ID \U{2014} Federation API (OIDC/SAML/SCIM/LDAP/Social)"
    else if file == "developer" then "Qeet ID \U{2014} Developer API (keys, webhooks, secrets, agents)"
    else "Qeet ID \U{2014} Operations API (audit, billing, analytics)"
  }

  function LowerChar(c: char): char {
    if 'A' <= c <= 'Z' then c - 'A' + 'a' else c
  }

  function Lower(s: string): string {
    seq(|s|, i requires 0 <= i < |s| => LowerChar(s[i]))
  }

  /** httpMethods, matched without regard to case. */
  predicate IsMethod(key: string) {
    Lower(key) in {"get", "post", "put", "patch", "delete"}
  }

  /** The operations of a path item. */
  function Operations(kids: seq<Tree>): seq<Tree> {
    if |kids| < 2 then []
    else (if IsMethod(kids[0].value) then [kids[1]] else []) + Operations(kids[2..])
  }

  function TagsOf(op: Tree): set<string> {
    match MapGet(Some(op), "tags")
    case None => {}
    case Some(tags) => set t | t in tags.kids :: t.value
  }

  predicate Mapped(op: Tree) {
    TagsOf(op) != {} && forall t :: t in TagsOf(op) ==> FileOf(t).Some?
  }

  function AllTags(ops: seq<Tree>): set<string> {
    set op, t | op in ops && t in TagsOf(op) :: t
  }

  function FilesOf(tags: set<string>): set<string> {
    set t | t in tags && FileOf(t).Some? :: FileOf(t).value
  }

  /** Every operation is tagged, and all their tags lead to the one file. */
  predicate Belongs(item: Tree, file: string) {
    var ops := Operations(item.kids);
    && (forall op :: op in ops ==> Mapped(op))
    && FilesOf(AllTags(ops)) == {file}
  }

  /** The file all the tags of a path item lead to. */
  function Destination(item: Tree): Option<string> {
    if Belongs(item, "auth") then Some("auth")
    else if Belongs(item, "management") then Some("management")
    else if Belongs(item, "federation") then Some("federation")
    else if Belongs(item, "developer") then Some("developer")
    else if Belongs(item, "operations") then Some("operations")
    else None
  }

  lemma DestinationIs(item: Tree, file: string)
    ensures Destination(item) == Some(file) <==> Belongs(item, file)
    ensures Destination(item).Some? ==> Destination(item).value in FILE_ORDER
  {
    if Belongs(item, file) {
      BelongsToOne(item, file, file);
      var f: string :| f in FILE_ORDER && f == file;
      assert f == FILE_ORDER[0] || f == FILE_ORDER[1] || f == FILE_ORDER[2] || f == FILE_ORDER[3] || f == FILE_ORDER[4];
      BelongsToOne(item, file, Destination(item).value);
    }
    assert "auth" == FILE_ORDER[0] && "management" == FILE_ORDER[1] && "federation" == FILE_ORDER[2];
    assert "developer" == FILE_ORDER[3] && "operations" == FILE_ORDER[4];
  }

  datatype Problem = NoTags | UnmappedTag(tag: string) | NoMethods | ManyFiles

  predicate FirstWithoutFile(elems: seq<Tree>, tag: string) {
    exists k :: 0 <= k < |elems| && elems[k].value == tag && FileOf(tag).None? &&
                forall j :: 0 <= j < k ==> FileOf(elems[j].value).Some?
  }

  /** What is wrong with the tags of an operation: there are none, or this is the first of them without a file. */
  predicate ProblemOf(op: Tree, p: Problem) {
    match p
    case NoTags => TagsOf(op) == {}
    case UnmappedTag(tag) =>
      MapGet(Some(op), "tags").Some? && FirstWithoutFile(MapGet(Some(op), "tags").value.kids, tag)
    case _ => false
  }

  /** The problem of the first operation that has one. */
  predicate FirstProblem(ops: seq<Tree>, i: nat, p: Problem) {
    i < |ops| && ProblemOf(ops[i], p) && forall j :: 0 <= j < i ==> Mapped(ops[j])
  }

  lemma ProblemIsUnmapped(op: Tree, p: Problem)
    requires ProblemOf(op, p)
    ensures !Mapped(op)
  {
    if p.UnmappedTag? {
      assert p.tag in TagsOf(op);
    }
  }

  /** What the loop has gathered from the operations seen so far. */
  predicate Gathered(seen: seq<Tree>, tags: set<string>, files: set<string>) {
    (forall op :: op in seen ==> Mapped(op)) && tags == AllTags(seen) && files == FilesOf(tags)
  }

  lemma OneMoreOperation(seen: seq<Tree>, op: Tree, tags: set<string>, files: set<string>)
    requires Gathered(seen, tags, files) && Mapped(op)
    ensures Gathered(seen + [op], tags + TagsOf(op), files + FilesOf(TagsOf(op)))
  {
    assert forall x :: x in seen + [op] <==> x in seen || x == op;
  }

  lemma NextOperation(seen: seq<Tree>, kids: seq<Tree>, i: nat)
    requires i + 1 < |kids|
    ensures seen + Operations(kids[i..]) ==
            (if IsMethod(kids[i].value) then seen + [kids[i + 1]] else seen) + Operations(kids[i + 2..])
  {
    assert kids[i..][2..] == kids[i + 2..] && kids[i..][0] == kids[i] && kids[i..][1] == kids[i + 1];
  }

  // Where a path goes, said without the functions above.

  /** Place i is the method of a complete entry of a path item. */
  predicate MethodAt(kids: seq<Tree>, i: nat) {
    i % 2 == 0 && i + 1 < |kids| && Lower(kids[i].value) in {"get", "post", "put", "patch", "delete"}
  }

  /** The operation has tags, and the table maps each of them to the file. */
  predicate TagsLeadTo(op: Tree, file: string) {
    && MapGet(Some(op), "tags").Some? && MapGet(Some(op), "tags").value.kids != []
    && forall t :: t in MapGet(Some(op), "tags").value.kids ==> FileOf(t.value) == Some(file)
  }

  ghost predicate LeadsTo(item: Tree, file: string) {
    && (exists i: nat :: MethodAt(item.kids, i))
    && forall i: nat :: MethodAt(item.kids, i) ==> TagsLeadTo(item.kids[i + 1], file)
  }

  lemma LaterMethods(kids: seq<Tree>)
    requires |kids| >= 2
    ensures forall i: nat :: i >= 2 ==> (MethodAt(kids, i) <==> MethodAt(kids[2..], i - 2))
  {
    forall i: nat | i >= 2 ensures MethodAt(kids, i) <==> MethodAt(kids[2..], i - 2) {
      if i < |kids| {
        assert kids[2..][i - 2] == kids[i];
      }
    }
  }

  ghost predicate HasOperation(kids: seq<Tree>, op: Tree) {
    exists i: nat :: MethodAt(kids, i) && kids[i + 1] == op
  }

  lemma FirstOrLater(kids: seq<Tree>, op: Tree)
    requires |kids| >= 2
    ensures HasOperation(kids, op) <==> (IsMethod(kids[0].value) && kids[1] == op) || HasOperation(kids[2..], op)
  {
    LaterMethods(kids);
    if HasOperation(kids[2..], op) {
      var i: nat :| MethodAt(kids[2..], i) && kids[2..][i + 1] == op;
      assert MethodAt(kids, i + 2) && kids[i + 3] == op;
    }
    if IsMethod(kids[0].value) {
      assert MethodAt(kids, 0);
    }
    if i: nat :| MethodAt(kids, i) && kids[i + 1] == op && i >= 2 {
      assert MethodAt(kids[2..], i - 2) && kids[2..][i - 2 + 1] == op;
    }
  }

  lemma {:induction false} OperationsAre(kids: seq<Tree>, op: Tree)
    ensures op in Operations(kids) <==> HasOperation(kids, op)
  {
    if |kids| >= 2 {
      OperationsAre(kids[2..], op);
      FirstOrLater(kids, op);
    }
  }

  lemma TagsLead(op: Tree, file: string)
    ensures TagsLeadTo(op, file) <==> Mapped(op) && FilesOf(TagsOf(op)) == {file}
  {
    var tags := MapGet(Some(op), "tags");
    if tags.Some? && tags.value.kids != [] {
      assert tags.value.kids[0].value in TagsOf(op);
      if TagsLeadTo(op, file) {
        forall f ensures f in FilesOf(TagsOf(op)) <==> f == file {
        }
      }
      if Mapped(op) && FilesOf(TagsOf(op)) == {file} {
        forall t | t in tags.value.kids ensures FileOf(t.value) == Some(file) {
          assert t.value in TagsOf(op) && FileOf(t.value).value in FilesOf(TagsOf(op));
        }
      }
    }
  }

  lemma BelongsIs(item: Tree, file: string)
    ensures Belongs(item, file) <==> LeadsTo(item, file)
  {
    var ops := Operations(item.kids);
    forall op ensures op in ops <==> HasOperation(item.kids, op) {
      OperationsAre(item.kids, op);
    }
    forall op ensures TagsLeadTo(op, file) <==> Mapped(op) && FilesOf(TagsOf(op)) == {file} {
      TagsLead(op, file);
    }
    OneFileForAll(ops, file);
    assert (exists i: nat :: MethodAt(item.kids, i)) <==> ops != [] by {
      if ops != [] {
        assert ops[0] in ops;
      }
      if i: nat :| MethodAt(item.kids, i) {
        assert item.kids[i + 1] in ops;
      }
    }
  }

  /** At most one file, and the one that is led to. */
  lemma AllBelongIs(item: Tree)
    ensures forall file :: Belongs(item, file) <==> LeadsTo(item, file)
    ensures forall f, g :: Belongs(item, f) && Belongs(item, g) ==> f == g
  {
    forall file ensures Belongs(item, file) <==> LeadsTo(item, file) {
      BelongsIs(item, file);
    }
    forall f, g | Belongs(item, f) && Belongs(item, g) ensures f == g {
      BelongsToOne(item, f, g);
    }
  }

  lemma OneFileForAll(ops: seq<Tree>, file: string)
    requires forall op :: TagsLeadTo(op, file) <==> Mapped(op) && FilesOf(TagsOf(op)) == {file}
    ensures (forall op :: op in ops ==> Mapped(op)) && FilesOf(AllTags(ops)) == {file} <==>
            ops != [] && forall op :: op in ops ==> TagsLeadTo(op, file)
  {
    forall op | op in ops ensures FilesOf(TagsOf(op)) <= FilesOf(AllTags(ops)) {
    }
    if (forall op :: op in ops ==> Mapped(op)) && FilesOf(AllTags(ops)) == {file} {
      assert file in FilesOf(AllTags(ops));
      forall op | op in ops ensures FilesOf(TagsOf(op)) == {file} {
        var t :| t in TagsOf(op);
        assert FileOf(t).value in FilesOf(TagsOf(op));
      }
    }
    if ops != [] && forall op :: op in ops ==> TagsLeadTo(op, file) {
      assert ops[0] in ops && file in FilesOf(TagsOf(ops[0]));
      OnlyFile(ops, file);
    }
  }

  lemma OnlyFile(ops: seq<Tree>, file: string)
    requires forall op :: op in ops ==> FilesOf(TagsOf(op)) == {file}
    ensures FilesOf(AllTags(ops)) <= {file}
  {
    forall f | f in FilesOf(AllTags(ops)) ensures f == file {
      var t :| t in AllTags(ops) && FileOf(t) == Some(f);
      var op :| op in ops && t in TagsOf(op);
      assert f in FilesOf(TagsOf(op));
    }
  }

  /**
   * classifyPath: the one file of a path with all its tags, or the problem of its first operation that has
   * one, or what keeps operations that have none from leading to one file.
   */
  method ClassifyPath(item: Tree) returns (r: Result<(string, set<string>), Problem>)
    ensures r.Ok? ==> Belongs(item, r.value.0) && r.value.1 == AllTags(Operations(item.kids))
    ensures r.Err? ==> forall file :: !Belongs(item, file)
    ensures forall file :: r.Ok? && r.value.0 == file <==> LeadsTo(item, file)
    ensures r == Err(NoMethods) <==> Operations(item.kids) == []
    ensures r == Err(ManyFiles) <==>
      (forall op :: op in Operations(item.kids) ==> Mapped(op)) && |FilesOf(AllTags(Operations(item.kids)))| > 1
    ensures r.Err? && (r.error.NoTags? || r.error.UnmappedTag?) <==>
            exists op :: op in Operations(item.kids) && !Mapped(op)
    ensures r.Err? && (r.error.NoTags? || r.error.UnmappedTag?) ==>
            exists i :: FirstProblem(Operations(item.kids), i, r.error)
  {
    ghost var ops := Operations(item.kids);
    AllBelongIs(item);
    var tags, files, problem := OperationLoop(item);
    if problem.Some? {
      ghost var i: nat :| FirstProblem(ops, i, problem.value);
      ProblemIsUnmapped(ops[i], problem.value);
      assert ops[i] in ops;
      return Err(problem.value);
    }
    r := OneFile(ops, tags, files);
  }

  /** Its loop over the operations. */
  method OperationLoop(item: Tree) returns (tags: set<string>, files: set<string>, problem: Option<Problem>)
    ensures problem.None? ==> Gathered(Operations(item.kids), tags, files)
    ensures problem.Some? ==> exists i :: FirstProblem(Operations(item.kids), i, problem.value)
  {
    tags, files, problem := {}, {}, None;
    var i := 0;
    ghost var ops := Operations(item.kids);
    ghost var seen: seq<Tree> := [];
    while i + 1 < |item.kids|
      invariant 0 <= i <= |item.kids|
      invariant ops == seen + Operations(item.kids[i..])
      invariant Gathered(seen, tags, files)
    {
      NextOperation(seen, item.kids, i);
      if IsMethod(item.kids[i].value) {
        var op := item.kids[i + 1];
        var t, f, bad := OperationTags(op);
        if bad.Some? {
          assert FirstProblem(ops, |seen|, bad.value);
          problem := bad;
          return;
        }
        OneMoreOperation(seen, op, tags, files);
        tags, files, seen := tags + t, files + f, seen + [op];
      }
      i := i + 2;
    }
    assert seen == ops;
  }

  /** The body of that loop: the tags of one operation and their files, or its problem. */
  method OperationTags(op: Tree) returns (tags: set<string>, files: set<string>, problem: Option<Problem>)
    ensures problem.None? ==> Mapped(op) && tags == TagsOf(op) && files == FilesOf(tags)
    ensures problem.Some? ==> ProblemOf(op, problem.value)
  {
    tags, files, problem := {}, {}, None;
    var opTags := MapGetLoop(Some(op), "tags");
    if opTags.None? || |opTags.value.kids| == 0 {
      problem := Some(NoTags);
      return;
    }
    var bad;
    tags, files, bad := TagLoop(opTags.value.kids);
    if bad.Some? {
      problem := Some(UnmappedTag(bad.value));
      return;
    }
    assert opTags.value.kids[0].value in TagsOf(op);
  }

  /** The end of classifyPath: all operations must have led to the one file. */
  method OneFile(ghost ops: seq<Tree>, tags: set<string>, files: set<string>)
      returns (r: Result<(string, set<string>), Problem>)
    requires (forall op :: op in ops ==> Mapped(op)) && tags == AllTags(ops) && files == FilesOf(tags)
    ensures r.Ok? ==> files == {r.value.0} && r.value.1 == tags
    ensures r.Err? ==> forall file :: files != {file}
    ensures r == Err(NoMethods) <==> ops == []
    ensures r == Err(ManyFiles) <==> |files| > 1
    ensures r.Err? ==> r.error.NoMethods? || r.error.ManyFiles?
  {
    if |files| == 0 {
      if ops != [] {
        MappedHasFile(ops);
      }
      return Err(NoMethods);
    }
    if |files| > 1 {
      return Err(ManyFiles);
    }
    var file :| file in files;
    assert files == {file} by {
      assert |files - {file}| == 0;
    }
    return Ok((file, tags));
  }

  lemma MappedHasFile(ops: seq<Tree>)
    requires ops != [] && forall op :: op in ops ==> Mapped(op)
    ensures FilesOf(AllTags(ops)) != {}
  {
    assert Mapped(ops[0]);
    var t :| t in TagsOf(ops[0]);
    assert FileOf(t).value in FilesOf(AllTags(ops));
  }

  /** The loop over the tags of one operation, stopping at the first that has no file. */
  method TagLoop(elems: seq<Tree>) returns (tags: set<string>, files: set<string>, bad: Option<string>)
    ensures bad.None? ==> tags == (set t | t in elems :: t.value) && files == FilesOf(tags)
    ensures bad.None? ==> forall t :: t in tags ==> FileOf(t).Some?
    ensures bad.Some? ==> FirstWithoutFile(elems, bad.value)
  {
    tags, files, bad := {}, {}, None;
    for i := 0 to |elems|
      invariant tags == (set t | t in elems[..i] :: t.value) && files == FilesOf(tags)
      invariant forall j :: 0 <= j < i ==> FileOf(elems[j].value).Some?
    {
      var name := elems[i].value;
      assert elems[..i + 1] == elems[..i] + [elems[i]];
      tags := tags + {name};
      var file := FileOf(name);
      if file.None? {
        bad := Some(name);
        return;
      }
      files := files + {file.value};
    }
    assert elems[..|elems|] == elems;
  }

  lemma BelongsToOne(item: Tree, f: string, g: string)
    requires Belongs(item, f) && Belongs(item, g)
    ensures f == g && f in FILE_ORDER
  {
    assert f in FilesOf(AllTags(Operations(item.kids)));
    assert f in {g};
  }

  // ---------------------------------------------------------------------------------------
  // Building the five files
  // ---------------------------------------------------------------------------------------

  function NewMap(kids: seq<Tree>): Tree { Tree(Mapping, "!!map", "", kids) }

  /** The entries that go to the file, in source order. */
  function Select(kids: seq<Tree>, dest: Tree -> Option<string>, file: string): seq<Tree> {
    if |kids| < 2 then []
    else
      var first := if dest(kids[1]) == Some(file) then [kids[0], kids[1]] else [];
      first + Select(kids[2..], dest, file)
  }

  /** The paths of a file. */
  function PathsFor(kids: seq<Tree>, file: string): seq<Tree> {
    Select(kids, Destination, file)
  }

  /** The tags used by those paths. */
  function TagsFor(kids: seq<Tree>, file: string): set<string> {
    if |kids| < 2 then {}
    else
      var first := if Destination(kids[1]) == Some(file) then AllTags(Operations(kids[1].kids)) else {};
      first + TagsFor(kids[2..], file)
  }

  /** No path meets a classification problem. */
  predicate AllClassify(kids: seq<Tree>) {
    |kids| >= 2 ==> Destination(kids[1]).Some? && AllClassify(kids[2..])
  }

  predicate Kept(closure: set<Reference>, section: string, name: string) {
    section == "securitySchemes" || Reference(section, name) in closure
  }

  function BuildSection(kids: seq<Tree>, section: string, closure: set<Reference>): seq<Tree> {
    if |kids| < 2 then []
    else
      var first := if Kept(closure, section, kids[0].value) then [ScalarTree(kids[0].value), kids[1]] else [];
      first + BuildSection(kids[2..], section, closure)
  }

  /** buildComponents: what the closure names, and every security scheme. */
  function BuildComponents(kids: seq<Tree>, closure: set<Reference>): seq<Tree> {
    if |kids| < 2 then []
    else
      var sec := BuildSection(kids[1].kids, kids[0].value, closure);
      var first := if sec == [] then [] else [ScalarTree(kids[0].value), NewMap(sec)];
      first + BuildComponents(kids[2..], closure)
  }

  function ScalarChild(m: Tree, key: string): string {
    match MapGet(Some(m), key)
    case None => ""
    case Some(v) => v.value
  }

  function KeepTags(elems: seq<Tree>, used: set<string>): seq<Tree> {
    if elems == [] then []
    else (if ScalarChild(elems[0], "name") in used then [elems[0]] else []) + KeepTags(elems[1..], used)
  }

  /** filterTags. */
  function FilterTags(tags: Option<Tree>, used: set<string>): Option<Tree> {
    if tags.None? || tags.value.kind != Sequence then None
    else
      var kept := KeepTags(tags.value.kids, used);
      if kept == [] then None else Some(Tree(Sequence, "!!seq", "", kept))
  }

  function SetTitle(info: Tree, title: string): Tree {
    info.(kids := SetScalar(info.kids, "title", title))
  }

  /** Setting a scalar sets it, and leaves every other entry as it is. */
  lemma {:induction false} SetScalarIs(kids: seq<Tree>, key: string, val: string, other: string)
    requires |kids| % 2 == 0
    ensures FindKey(SetScalar(kids, key, val), other) ==
            if other == key then Some(ScalarTree(val)) else FindKey(kids, other)
  {
    if kids == [] {
      assert SetScalar(kids, key, val)[2..] == [] && FindKey([], other).None?;
    } else if kids[0].value == key {
      assert SetScalar(kids, key, val)[2..] == kids[2..];
    } else {
      SetScalarIs(kids[2..], key, val, other);
      assert SetScalar(kids, key, val)[2..] == SetScalar(kids[2..], key, val);
    }
  }

  function Entry(key: string, val: Option<Tree>): seq<Tree> {
    if val.None? then [] else [ScalarTree(key), val.value]
  }

  /** The top-level sections of a document. */
  datatype Sections = Sections(
    openapi: Tree, info: Tree, servers: Option<Tree>, tags: Option<Tree>, paths: Tree, components: Tree)

  /** A document in the order both modes write it. */
  function Document(s: Sections): Tree {
    NewMap(Entry("openapi", Some(s.openapi)) + (Entry("info", Some(s.info)) + Rest(s)))
  }

  function Rest(s: Sections): seq<Tree> {
    Entry("servers", s.servers) + (Entry("tags", s.tags)
      + (Entry("paths", Some(s.paths)) + Entry("components", Some(s.components))))
  }

  /** The sections both modes look up; None when one that is always present is absent. */
  function ReadSections(root: Tree): Option<Sections> {
    var get := key => MapGet(Some(root), key);
    if get("openapi").None? || get("info").None? || get("paths").None? || get("components").None? then None
    else Some(Sections(get("openapi").value, get("info").value, get("servers"), get("tags"),
                       get("paths").value, get("components").value))
  }

  lemma SkipEntry(k: string, val: Option<Tree>, rest: seq<Tree>, key: string)
    ensures FindKey(Entry(k, val) + rest, key) ==
            if k == key && val.Some? then val else FindKey(rest, key)
  {
    if val.Some? {
      assert (Entry(k, val) + rest)[2..] == rest;
    } else {
      assert Entry(k, val) + rest == rest;
    }
  }

  lemma FindInDocument(s: Sections, key: string)
    ensures FindKey(Document(s).kids, key) ==
            if key == "openapi" then Some(s.openapi)
            else if key == "info" then Some(s.info)
            else if key == "servers" then s.servers
            else if key == "tags" then s.tags
            else if key == "paths" then Some(s.paths)
            else if key == "components" then Some(s.components)
            else None
  {
    var e5 := Entry("components", Some(s.components));
    var e4 := Entry("paths", Some(s.paths)) + e5;
    var e3 := Entry("tags", s.tags) + e4;
    SkipEntry("openapi", Some(s.openapi), Entry("info", Some(s.info)) + Rest(s), key);
    SkipEntry("info", Some(s.info), Rest(s), key);
    SkipEntry("servers", s.servers, e3, key);
    SkipEntry("tags", s.tags, e4, key);
    SkipEntry("paths", Some(s.paths), e5, key);
    SkipEntry("components", Some(s.components), [], key);
    assert e5 + [] == e5;
  }

  /** Writing the sections and looking them up again gives them back. */
  lemma ReadWrite(s: Sections)
    ensures ReadSections(Document(s)) == Some(s)
  {
    FindInDocument(s, "openapi");
    FindInDocument(s, "info");
    FindInDocument(s, "servers");
    FindInDocument(s, "tags");
    FindInDocument(s, "paths");
    FindInDocument(s, "components");
  }

  function Comps(doc: Sections): Option<Tree> { Some(doc.components) }

  ghost function FileClosure(doc: Sections, file: string): set<Reference> {
    Closure(Comps(doc), RefsOf(NewMap(PathsFor(doc.paths.kids, file))))
  }

  /** What the split mode writes for one file. */
  ghost function FileSections(doc: Sections, file: string): Sections {
    Sections(
      doc.openapi,
      SetTitle(doc.info, TitleOf(file)),
      doc.servers,
      FilterTags(doc.tags, TagsFor(doc.paths.kids, file)),
      NewMap(PathsFor(doc.paths.kids, file)),
      NewMap(BuildComponents(doc.components.kids, FileClosure(doc, file))))
  }

  // The loops.

  lemma {:induction false} NoEmptySection(kids: seq<Tree>, closure: set<Reference>)
    ensures |BuildComponents(kids, closure)| % 2 == 0
    ensures var r := BuildComponents(kids, closure);
            forall i :: 0 <= i < |r| && i % 2 == 1 ==> r[i].kids != []
  {
    if |kids| >= 2 {
      NoEmptySection(kids[2..], closure);
      var rest, r := BuildComponents(kids[2..], closure), BuildComponents(kids, closure);
      assert r == rest || r[2..] == rest;
      forall i | 0 <= i < |r| && i % 2 == 1 ensures r[i].kids != [] {
        if r != rest && i >= 2 {
          assert r[i] == rest[i - 2];
        }
      }
    }
  }

  method BuildComponentsLoop(orig: Tree, closure: set<Reference>) returns (r: Tree)
    ensures r == NewMap(BuildComponents(orig.kids, closure))
    ensures forall i :: 0 <= i < |r.kids| && i % 2 == 1 ==> r.kids[i].kids != []
  {
    NoEmptySection(orig.kids, closure);
    r := SectionsLoop(orig, closure);
  }

  method SectionsLoop(orig: Tree, closure: set<Reference>) returns (r: Tree)
    ensures r == NewMap(BuildComponents(orig.kids, closure))
  {
    var out: seq<Tree> := [];
    var i := 0;
    while i + 1 < |orig.kids|
      invariant 0 <= i <= |orig.kids|
      invariant BuildComponents(orig.kids, closure) == out + BuildComponents(orig.kids[i..], closure)
    {
      assert orig.kids[i..][2..] == orig.kids[i + 2..];
      var section, secNode := orig.kids[i].value, orig.kids[i + 1];
      var includeAll := section == "securitySchemes";
      var wanted := exists r :: r in closure && r.section == section;
      if includeAll || wanted {
        var secOut := SectionLoop(secNode, section, includeAll, closure);
        if |secOut| > 0 {
          out := out + [ScalarTree(section), NewMap(secOut)];
        }
      } else {
        NothingKept(secNode.kids, section, closure);
      }
      i := i + 2;
    }
    r := NewMap(out);
  }

  method SectionLoop(secNode: Tree, section: string, includeAll: bool, closure: set<Reference>) returns (out: seq<Tree>)
    requires includeAll <==> section == "securitySchemes"
    ensures out == BuildSection(secNode.kids, section, closure)
  {
    out := [];
    var j := 0;
    while j + 1 < |secNode.kids|
      invariant 0 <= j <= |secNode.kids|
      invariant BuildSection(secNode.kids, section, closure) == out + BuildSection(secNode.kids[j..], section, closure)
    {
      ghost var rest := BuildSection(secNode.kids[j + 2..], section, closure);
      assert secNode.kids[j..][2..] == secNode.kids[j + 2..];
      var name := secNode.kids[j].value;
      if includeAll || Reference(section, name) in closure {
        assert out + ([ScalarTree(name), secNode.kids[j + 1]] + rest) ==
            out + [ScalarTree(name), secNode.kids[j + 1]] + rest;
        out := out + [ScalarTree(name), secNode.kids[j + 1]];
      } else {
        assert [] + rest == rest;
      }
      j := j + 2;
    }
  }

  lemma {:induction false} NothingKept(kids: seq<Tree>, section: string, closure: set<Reference>)
    requires section != "securitySchemes" && forall r :: r in closure ==> r.section != section
    ensures BuildSection(kids, section, closure) == []
  {
    if |kids| >= 2 {
      NothingKept(kids[2..], section, closure);
    }
  }

  method FilterTagsLoop(tags: Option<Tree>, used: set<string>) returns (r: Option<Tree>)
    ensures r == FilterTags(tags, used)
  {
    if tags.None? || tags.value.kind != Sequence {
      return None;
    }
    var elems := tags.value.kids;
    var out: seq<Tree> := [];
    for i := 0 to |elems|
      invariant KeepTags(elems, used) == out + KeepTags(elems[i..], used)
    {
      ghost var rest := KeepTags(elems[i + 1..], used);
      assert elems[i..][1..] == elems[i + 1..];
      if ScalarChild(elems[i], "name") in used {
        assert out + ([elems[i]] + rest) == out + [elems[i]] + rest;
        out := out + [elems[i]];
      } else {
        assert [] + rest == rest;
      }
    }
    assert elems[|elems|..] == [] && out + [] == out;
    if |out| == 0 {
      return None;
    }
    return Some(Tree(Sequence, "!!seq", "", out));
  }

  /** The paths and tags sorted by file so far. */
  datatype Sorting = Sorting(paths: map<string, seq<Tree>>, tags: map<string, set<string>>)

  function PathsOf(s: Sorting, file: string): seq<Tree> {
    if file in s.paths then s.paths[file] else []
  }

  function UsedTags(s: Sorting, file: string): set<string> {
    if file in s.tags then s.tags[file] else {}
  }

  lemma NextPath(kids: seq<Tree>, i: nat, file: string, f: string)
    requires i + 1 < |kids| && Destination(kids[i + 1]) == Some(file)
    ensures PathsFor(kids[i..], f) ==
            (if f == file then [kids[i], kids[i + 1]] else []) + PathsFor(kids[i + 2..], f)
    ensures TagsFor(kids[i..], f) ==
            (if f == file then AllTags(Operations(kids[i + 1].kids)) else {}) + TagsFor(kids[i + 2..], f)
  {
    assert kids[i..][2..] == kids[i + 2..];
  }

  lemma SortedNext(s: Sorting, file: string, entry: seq<Tree>, tags: set<string>, s': Sorting, f: string,
                   paths: seq<Tree>, used: set<string>)
    requires s'.paths == s.paths[file := PathsOf(s, file) + entry]
    requires s'.tags == s.tags[file := UsedTags(s, file) + tags]
    ensures PathsOf(s, f) + ((if f == file then entry else []) + paths) == PathsOf(s', f) + paths
    ensures UsedTags(s, f) + ((if f == file then tags else {}) + used) == UsedTags(s', f) + used
  {
  }

  /** The first loop of doSplit: every path goes to its file, or is reported. */
  method SortPaths(kids: seq<Tree>) returns (s: Sorting, conflicts: seq<(string, Problem)>)
    ensures conflicts == [] <==> AllClassify(kids)
    ensures conflicts == [] ==> forall f :: PathsOf(s, f) == PathsFor(kids, f) && UsedTags(s, f) == TagsFor(kids, f)
  {
    s, conflicts := Sorting(map[], map[]), [];
    var i := 0;
    while i + 1 < |kids|
      invariant 0 <= i <= |kids|
      invariant conflicts == [] ==> forall f :: PathsFor(kids, f) == PathsOf(s, f) + PathsFor(kids[i..], f)
      invariant conflicts == [] ==> forall f :: TagsFor(kids, f) == UsedTags(s, f) + TagsFor(kids[i..], f)
      invariant AllClassify(kids) <==> conflicts == [] && AllClassify(kids[i..])
    {
      assert kids[i..][2..] == kids[i + 2..];
      var key, item := kids[i], kids[i + 1];
      var r := ClassifyPath(item);
      match r {
        case Err(problem) =>
          if Destination(item).Some? {
            DestinationIs(item, Destination(item).value);
          }
          conflicts := conflicts + [(key.value, problem)];
        case Ok((file, tags)) =>
          DestinationIs(item, file);
          ghost var before := s;
          s := Sorting(s.paths[file := PathsOf(s, file) + [key, item]], s.tags[file := UsedTags(s, file) + tags]);
          forall f | conflicts == []
            ensures PathsFor(kids, f) == PathsOf(s, f) + PathsFor(kids[i + 2..], f)
            ensures TagsFor(kids, f) == UsedTags(s, f) + TagsFor(kids[i + 2..], f)
          {
            NextPath(kids, i, file, f);
            SortedNext(before, file, [key, item], tags, s, f, PathsFor(kids[i + 2..], f), TagsFor(kids[i + 2..], f));
          }
      }
      i := i + 2;
    }
  }

  datatype SplitError = MissingSection | Conflicts(found: seq<(string, Problem)>)

  /**
   * doSplit, from the expanded document to the documents it writes.  The source follows the
   * openapi and info nodes without looking whether they are there.
   */
  method DoSplit(root: Tree) returns (r: Result<map<string, Tree>, SplitError>)
    requires MapGet(Some(root), "openapi").Some? && MapGet(Some(root), "info").Some?
    ensures r == Err(MissingSection) <==> ReadSections(root).None?
    ensures ReadSections(root).Some? ==> (r.Ok? <==> AllClassify(ReadSections(root).value.paths.kids))
    ensures r.Ok? ==> forall f :: f in r.value <==> f in FILE_ORDER
    ensures r.Ok? ==> forall f :: f in r.value ==> r.value[f] == Document(FileSections(ReadSections(root).value, f))
  {
    var sections := ReadSections(root);
    if sections.None? {
      return Err(MissingSection);
    }
    var doc := sections.value;
    var s, conflicts := SortPaths(doc.paths.kids);
    if |conflicts| > 0 {
      return Err(Conflicts(conflicts));
    }
    var written := WriteFiles(doc, s, FILE_ORDER);
    return Ok(written);
  }

  /** The sorting has the paths and the tags of every file. */
  ghost predicate Sorts(doc: Sections, s: Sorting) {
    forall f :: PathsOf(s, f) == PathsFor(doc.paths.kids, f) && UsedTags(s, f) == TagsFor(doc.paths.kids, f)
  }

  /** Its second loop, over the files in order. */
  method WriteFiles(doc: Sections, s: Sorting, order: seq<string>) returns (written: map<string, Tree>)
    requires Sorts(doc, s)
    ensures forall f :: f in written <==> f in order
    ensures forall f :: f in written ==> written[f] == Document(FileSections(doc, f))
  {
    written := map[];
    for i := 0 to |order|
      invariant forall f :: f in written <==> f in order[..i]
      invariant forall f :: f in written ==> written[f] == Document(FileSections(doc, f))
    {
      assert order[..i + 1] == order[..i] + [order[i]];
      var out := WriteSorted(doc, s, order[i]);
      written := written[order[i] := out];
    }
    assert order[..|order|] == order;
  }

  method WriteSorted(doc: Sections, s: Sorting, file: string) returns (out: Tree)
    requires Sorts(doc, s)
    ensures out == Document(FileSections(doc, file))
  {
    out := WriteFile(doc, file, PathsOf(s, file), UsedTags(s, file));
  }

  /** The body of that loop. */
  method WriteFile(doc: Sections, file: string, entries: seq<Tree>, used: set<string>) returns (out: Tree)
    requires entries == PathsFor(doc.paths.kids, file) && used == TagsFor(doc.paths.kids, file)
    ensures out == Document(FileSections(doc, file))
  {
    var paths := NewMap(entries);
    var start := CollectRefs(paths, {});
    var closure := ResolveClosure(Comps(doc), start);
    var components := BuildComponentsLoop(doc.components, closure);
    var tags := FilterTagsLoop(doc.tags, used);
    assert start == RefsOf(paths);
    out := Document(Sections(doc.openapi, SetTitle(doc.info, TitleOf(file)), doc.servers, tags, paths, components));
  }
}
