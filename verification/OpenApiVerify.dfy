/** What the verify mode finds in the files the split mode writes. */
module OpenApiVerify {
  import opened Wrappers
  import opened YamlTree
  import opened OpenApiRefs
  import opened OpenApiSplit

  /** doVerify on one file: every reference resolves in the file itself and no alias is left. */
  predicate Passes(root: Tree) {
    && AliasFree(root)
    && forall r :: r in RefsOf(root) ==> Lookup(MapGet(Some(root), "components"), r).Some?
  }

  /** The problems doVerify reports for one file. */
  method DoVerify(root: Tree) returns (aliases: nat, dangling: set<Reference>)
    ensures aliases == 0 && dangling == {} <==> Passes(root)
    ensures dangling == set r | r in RefsOf(root) && Lookup(MapGet(Some(root), "components"), r).None?
  {
    aliases := CountAliases(root);
    CountAliasesZero(root);
    var components := MapGetLoop(Some(root), "components");
    var refs := CollectRefs(root, {});
    assert refs == RefsOf(root);
    dangling := {};
    var todo := refs;
    while todo != {}
      invariant todo <= refs
      invariant dangling == set r | r in refs - todo && Lookup(components, r).None?
    {
      var r :| r in todo;
      todo := todo - {r};
      var sec := MapGetLoop(components, r.section);
      var comp := MapGetLoop(sec, r.name);
      if comp.None? {
        dangling := dangling + {r};
      }
    }
  }

  // ---------------------------------------------------------------------------------------
  // The source document
  // ---------------------------------------------------------------------------------------

  predicate NoRefKey(kids: seq<Tree>) {
    |kids| >= 2 ==> kids[0].value != "$ref" && NoRefKey(kids[2..])
  }

  /** The sections are mappings whose component names are distinct, none of them "$ref". */
  predicate GoodSections(kids: seq<Tree>) {
    |kids| >= 2 ==>
      && kids[1].kind == Mapping && DistinctKeys(kids[1].kids) && NoRefKey(kids[1].kids)
      && GoodSections(kids[2..])
  }

  predicate GoodComponents(doc: Sections) {
    doc.components.kind == Mapping && DistinctKeys(doc.components.kids) && GoodSections(doc.components.kids)
  }

  // ---------------------------------------------------------------------------------------
  // Looking up in the components of an output file
  // ---------------------------------------------------------------------------------------

  lemma {:induction false} FindKept(kids: seq<Tree>, section: string, closure: set<Reference>, name: string)
    ensures FindKey(BuildSection(kids, section, closure), name) ==
            if Kept(closure, section, name) then FindKey(kids, name) else None
  {
    if |kids| >= 2 {
      FindKept(kids[2..], section, closure, name);
      if Kept(closure, section, kids[0].value) {
        assert BuildSection(kids, section, closure)[2..] == BuildSection(kids[2..], section, closure);
      } else {
        assert BuildSection(kids, section, closure) == BuildSection(kids[2..], section, closure);
      }
    }
  }

  function BuiltSection(sec: Tree, section: string, closure: set<Reference>): Option<Tree> {
    var kept := BuildSection(sec.kids, section, closure);
    if kept == [] then None else Some(NewMap(kept))
  }

  lemma {:induction false} FindBuilt(kids: seq<Tree>, closure: set<Reference>, section: string)
    requires DistinctKeys(kids)
    ensures FindKey(BuildComponents(kids, closure), section) ==
            match FindKey(kids, section)
            case None => None
            case Some(sec) => BuiltSection(sec, section, closure)
  {
    if |kids| >= 2 {
      FindBuilt(kids[2..], closure, section);
      var rest := BuildComponents(kids[2..], closure);
      if BuildSection(kids[1].kids, kids[0].value, closure) == [] {
        assert BuildComponents(kids, closure) == rest;
      } else {
        assert BuildComponents(kids, closure)[2..] == rest;
      }
    }
  }

  lemma {:induction false} GoodSection(kids: seq<Tree>, section: string)
    requires GoodSections(kids) && FindKey(kids, section).Some?
    ensures var sec := FindKey(kids, section).value;
            sec.kind == Mapping && DistinctKeys(sec.kids) && NoRefKey(sec.kids)
  {
    if kids[0].value != section {
      GoodSection(kids[2..], section);
    }
  }

  /** An output file resolves a reference as the source does if it keeps it, and not at all otherwise. */
  lemma LookupBuilt(doc: Sections, closure: set<Reference>, r: Reference)
    requires GoodComponents(doc)
    ensures Lookup(Some(NewMap(BuildComponents(doc.components.kids, closure))), r) ==
            if Kept(closure, r.section, r.name) then Lookup(Comps(doc), r) else None
  {
    var kids := doc.components.kids;
    FindBuilt(kids, closure, r.section);
    if FindKey(kids, r.section).Some? {
      var sec := FindKey(kids, r.section).value;
      GoodSection(kids, r.section);
      FindKept(sec.kids, r.section, closure, r.name);
    }
  }

  // ---------------------------------------------------------------------------------------
  // The references of an output file
  // ---------------------------------------------------------------------------------------

  /** A reference below a mapping with distinct keys sits in the value of one of them. */
  lemma {:induction false} EntryOf(kids: seq<Tree>, x: Reference) returns (key: string)
    requires x in RefsOfEntries(kids) && DistinctKeys(kids)
    requires NoRefKey(kids) || NoScalar(kids)
    ensures FindKey(kids, key).Some? && x in RefsOf(FindKey(kids, key).value)
  {
    if x in RefsOf(kids[1]) {
      key := kids[0].value;
    } else {
      key := EntryOf(kids[2..], x);
    }
  }

  predicate NoScalar(kids: seq<Tree>) {
    |kids| >= 2 ==> kids[1].kind != Scalar && NoScalar(kids[2..])
  }

  lemma {:induction false} BuiltKeys(kids: seq<Tree>, closure: set<Reference>)
    requires DistinctKeys(kids)
    ensures DistinctKeys(BuildComponents(kids, closure)) && NoScalar(BuildComponents(kids, closure))
  {
    if |kids| >= 2 {
      BuiltKeys(kids[2..], closure);
      FindBuilt(kids[2..], closure, kids[0].value);
      var rest := BuildComponents(kids[2..], closure);
      if BuildSection(kids[1].kids, kids[0].value, closure) == [] {
        assert BuildComponents(kids, closure) == rest;
      } else {
        assert BuildComponents(kids, closure)[2..] == rest;
      }
    }
  }

  lemma {:induction false} KeptKeys(kids: seq<Tree>, section: string, closure: set<Reference>)
    requires DistinctKeys(kids) && NoRefKey(kids)
    ensures DistinctKeys(BuildSection(kids, section, closure)) && NoRefKey(BuildSection(kids, section, closure))
  {
    if |kids| >= 2 {
      KeptKeys(kids[2..], section, closure);
      FindKept(kids[2..], section, closure, kids[0].value);
      var rest := BuildSection(kids[2..], section, closure);
      if Kept(closure, section, kids[0].value) {
        assert BuildSection(kids, section, closure)[2..] == rest;
      } else {
        assert BuildSection(kids, section, closure) == rest;
      }
    }
  }

  /** The references of the security schemes, which every file carries. */
  function SchemeRefs(doc: Sections): set<Reference> {
    match MapGet(Comps(doc), "securitySchemes")
    case None => {}
    case Some(sec) => RefsOf(sec)
  }

  /** A reference among the kept components comes from a component of the closure or from a security scheme. */
  lemma BuiltRefsUpper(doc: Sections, C: set<Reference>, x: Reference)
    requires GoodComponents(doc) && Closed(Comps(doc), C)
    requires x in RefsOf(NewMap(BuildComponents(doc.components.kids, C)))
    ensures x in C + SchemeRefs(doc)
  {
    var kids := doc.components.kids;
    BuiltKeys(kids, C);
    var section := EntryOf(BuildComponents(kids, C), x);
    FindBuilt(kids, C, section);
    GoodSection(kids, section);
    var sec := FindKey(kids, section).value;
    KeptKeys(sec.kids, section, C);
    var name := EntryOf(BuildSection(sec.kids, section, C), x);
    FindKept(sec.kids, section, C, name);
    FoundRefs(sec.kids, name);
    var r := Reference(section, name);
    assert x in Uses(Comps(doc), r);
  }

  /** What a kept component refers to is referred to in the output. */
  lemma BuiltRefsLower(doc: Sections, C: set<Reference>, r: Reference)
    requires GoodComponents(doc) && Kept(C, r.section, r.name)
    ensures Uses(Comps(doc), r) <= RefsOf(NewMap(BuildComponents(doc.components.kids, C)))
  {
    LookupBuilt(doc, C, r);
    UsesWithin(Some(NewMap(BuildComponents(doc.components.kids, C))), r);
  }

  lemma SchemesLower(doc: Sections, C: set<Reference>)
    requires GoodComponents(doc)
    ensures SchemeRefs(doc) <= RefsOf(NewMap(BuildComponents(doc.components.kids, C)))
  {
    var kids := doc.components.kids;
    if FindKey(kids, "securitySchemes").Some? {
      var sec := FindKey(kids, "securitySchemes").value;
      GoodSection(kids, "securitySchemes");
      forall x | x in RefsOf(sec) ensures x in RefsOf(NewMap(BuildComponents(kids, C))) {
        var name := EntryOf(sec.kids, x);
        BuiltRefsLower(doc, C, Reference("securitySchemes", name));
        assert x in Uses(Comps(doc), Reference("securitySchemes", name));
      }
    }
  }

  function OptRefs(t: Option<Tree>): set<Reference> {
    if t.None? then {} else RefsOf(t.value)
  }

  lemma EntryRefs(k: string, val: Option<Tree>, rest: seq<Tree>)
    requires k != "$ref"
    ensures RefsOfEntries(Entry(k, val) + rest) == OptRefs(val) + RefsOfEntries(rest)
  {
    if val.Some? {
      assert (Entry(k, val) + rest)[2..] == rest;
    } else {
      assert Entry(k, val) + rest == rest;
    }
  }

  lemma DocumentRefs(s: Sections)
    ensures RefsOf(Document(s)) == RefsOf(s.openapi) + RefsOf(s.info) + OptRefs(s.servers) + OptRefs(s.tags)
                                   + RefsOf(s.paths) + RefsOf(s.components)
  {
    var e5 := Entry("components", Some(s.components));
    var e4 := Entry("paths", Some(s.paths)) + e5;
    EntryRefs("openapi", Some(s.openapi), Entry("info", Some(s.info)) + Rest(s));
    EntryRefs("info", Some(s.info), Rest(s));
    EntryRefs("servers", s.servers, Entry("tags", s.tags) + e4);
    EntryRefs("tags", s.tags, e4);
    EntryRefs("paths", Some(s.paths), e5);
    EntryRefs("components", Some(s.components), []);
    assert e5 + [] == e5;
  }

  /** The references a file carries besides those of its paths and of the components they need. */
  function SideRefs(doc: Sections, file: string): set<Reference> {
    RefsOf(doc.openapi) + RefsOf(SetTitle(doc.info, TitleOf(file))) + OptRefs(doc.servers)
    + OptRefs(FilterTags(doc.tags, TagsFor(doc.paths.kids, file))) + SchemeRefs(doc)
  }

  /** The references of a file are the closure of its paths, and the side references. */
  lemma FileRefs(doc: Sections, file: string)
    requires GoodComponents(doc)
    ensures RefsOf(Document(FileSections(doc, file))) == FileClosure(doc, file) + SideRefs(doc, file)
  {
    DocumentRefs(FileSections(doc, file));
    FileComponentRefs(doc, file);
  }

  lemma FileComponentRefs(doc: Sections, file: string)
    requires GoodComponents(doc)
    ensures var s := FileSections(doc, file);
            RefsOf(s.paths) + RefsOf(s.components) == FileClosure(doc, file) + SchemeRefs(doc)
  {
    var s := FileSections(doc, file);
    var C := FileClosure(doc, file);
    var start, out := RefsOf(s.paths), RefsOf(s.components);
    ClosureHoldsStart(Comps(doc), start);
    SchemesLower(doc, C);
    forall x | x in out ensures x in C + SchemeRefs(doc) {
      BuiltRefsUpper(doc, C, x);
    }
    KeptClosed(doc, C);
    MeetClosed(Comps(doc), C, out, start);
    ClosureWithin(Comps(doc), start, C * (start + out));
  }

  lemma MeetClosed(components: Option<Tree>, C: set<Reference>, out: set<Reference>, start: set<Reference>)
    requires Closed(components, C) && forall r :: r in C ==> Uses(components, r) <= out
    ensures Closed(components, C * (start + out))
  {
  }

  lemma KeptClosed(doc: Sections, C: set<Reference>)
    requires GoodComponents(doc)
    ensures forall r :: r in C ==> Uses(Comps(doc), r) <= RefsOf(NewMap(BuildComponents(doc.components.kids, C)))
  {
    forall r | r in C ensures Uses(Comps(doc), r) <= RefsOf(NewMap(BuildComponents(doc.components.kids, C))) {
      BuiltRefsLower(doc, C, r);
    }
  }

  // ---------------------------------------------------------------------------------------
  // The verdict
  // ---------------------------------------------------------------------------------------

  predicate AllAliasFree(kids: seq<Tree>) {
    forall t :: t in kids ==> AliasFree(t)
  }

  predicate DocAliasFree(doc: Sections) {
    && AliasFree(doc.openapi) && AliasFree(doc.info)
    && (doc.servers.Some? ==> AliasFree(doc.servers.value)) && (doc.tags.Some? ==> AliasFree(doc.tags.value))
    && AliasFree(doc.paths) && AliasFree(doc.components)
  }

  lemma {:induction false} PathsAliasFree(kids: seq<Tree>, dest: Tree -> Option<string>, file: string)
    requires AllAliasFree(kids)
    ensures AllAliasFree(Select(kids, dest, file))
  {
    if |kids| >= 2 {
      PathsAliasFree(kids[2..], dest, file);
    }
  }

  lemma {:induction false} SectionAliasFree(kids: seq<Tree>, section: string, closure: set<Reference>)
    requires AllAliasFree(kids)
    ensures AllAliasFree(BuildSection(kids, section, closure))
  {
    if |kids| >= 2 {
      SectionAliasFree(kids[2..], section, closure);
    }
  }

  lemma {:induction false} ComponentsAliasFree(kids: seq<Tree>, closure: set<Reference>)
    requires AllAliasFree(kids)
    ensures AllAliasFree(BuildComponents(kids, closure))
  {
    if |kids| >= 2 {
      assert AliasFree(kids[1]);
      SectionAliasFree(kids[1].kids, kids[0].value, closure);
      ComponentsAliasFree(kids[2..], closure);
    }
  }

  lemma {:induction false} TagsAliasFree(elems: seq<Tree>, used: set<string>)
    requires AllAliasFree(elems)
    ensures AllAliasFree(KeepTags(elems, used))
  {
    if elems != [] {
      TagsAliasFree(elems[1..], used);
    }
  }

  lemma {:induction false} TitleAliasFree(kids: seq<Tree>, key: string, val: string)
    requires AllAliasFree(kids)
    ensures AllAliasFree(SetScalar(kids, key, val))
  {
    if |kids| >= 2 && kids[0].value != key {
      TitleAliasFree(kids[2..], key, val);
    }
  }

  lemma FileAliasFree(doc: Sections, file: string)
    requires DocAliasFree(doc)
    ensures AliasFree(Document(FileSections(doc, file)))
  {
    PathsAliasFree(doc.paths.kids, Destination, file);
    ComponentsAliasFree(doc.components.kids, FileClosure(doc, file));
    TitleAliasFree(doc.info.kids, "title", TitleOf(file));
    if doc.tags.Some? {
      TagsAliasFree(doc.tags.value.kids, TagsFor(doc.paths.kids, file));
    }
    DocumentAliasFree(FileSections(doc, file));
  }

  lemma DocumentAliasFree(s: Sections)
    requires DocAliasFree(s)
    ensures AliasFree(Document(s))
  {
    EntryAliasFree("components", Some(s.components), []);
    assert Entry("components", Some(s.components)) + [] == Entry("components", Some(s.components));
    EntryAliasFree("paths", Some(s.paths), Entry("components", Some(s.components)));
    EntryAliasFree("tags", s.tags, Entry("paths", Some(s.paths)) + Entry("components", Some(s.components)));
    EntryAliasFree("servers", s.servers,
      Entry("tags", s.tags) + (Entry("paths", Some(s.paths)) + Entry("components", Some(s.components))));
    EntryAliasFree("info", Some(s.info), Rest(s));
    EntryAliasFree("openapi", Some(s.openapi), Entry("info", Some(s.info)) + Rest(s));
  }

  lemma EntryAliasFree(k: string, val: Option<Tree>, rest: seq<Tree>)
    requires (val.Some? ==> AliasFree(val.value)) && AllAliasFree(rest)
    ensures AllAliasFree(Entry(k, val) + rest)
  {
  }

  /**
   * A file the split mode writes passes the verify mode exactly when every component its paths
   * reach exists, and every other reference it carries is one that it keeps and that exists.
   */
  lemma SplitPassesVerify(doc: Sections, file: string)
    requires GoodComponents(doc) && DocAliasFree(doc)
    ensures Passes(Document(FileSections(doc, file))) <==>
            && (forall r :: r in FileClosure(doc, file) ==> Lookup(Comps(doc), r).Some?)
            && (forall r :: r in SideRefs(doc, file) ==>
                  Kept(FileClosure(doc, file), r.section, r.name) && Lookup(Comps(doc), r).Some?)
  {
    FileRefs(doc, file);
    FileAliasFree(doc, file);
    var components := MapGet(Some(Document(FileSections(doc, file))), "components");
    forall r ensures Lookup(components, r) ==
                     if Kept(FileClosure(doc, file), r.section, r.name) then Lookup(Comps(doc), r) else None {
      LookupInFile(doc, file, r);
    }
    Verdict(FileClosure(doc, file), SideRefs(doc, file), components, Comps(doc));
  }

  lemma Verdict(C: set<Reference>, side: set<Reference>, file: Option<Tree>, source: Option<Tree>)
    requires forall r :: Lookup(file, r) == if Kept(C, r.section, r.name) then Lookup(source, r) else None
    ensures (forall r :: r in C + side ==> Lookup(file, r).Some?) <==>
            && (forall r :: r in C ==> Lookup(source, r).Some?)
            && (forall r :: r in side ==> Kept(C, r.section, r.name) && Lookup(source, r).Some?)
  {
  }

  lemma LookupInFile(doc: Sections, file: string, r: Reference)
    requires GoodComponents(doc)
    ensures Lookup(MapGet(Some(Document(FileSections(doc, file))), "components"), r) ==
            if Kept(FileClosure(doc, file), r.section, r.name) then Lookup(Comps(doc), r) else None
  {
    FindInDocument(FileSections(doc, file), "components");
    LookupBuilt(doc, FileClosure(doc, file), r);
  }

  /** Every reference in the source resolves in the source. */
  predicate NoDangling(doc: Sections) {
    forall r :: r in RefsOf(doc.paths) + RefsOf(doc.components) ==> Lookup(Comps(doc), r).Some?
  }

  lemma {:induction false} PathRefs(kids: seq<Tree>, dest: Tree -> Option<string>, file: string)
    ensures RefsOfEntries(Select(kids, dest, file)) <= RefsOfEntries(kids)
  {
    if |kids| >= 2 {
      PathRefs(kids[2..], dest, file);
      if dest(kids[1]) == Some(file) {
        assert Select(kids, dest, file)[2..] == Select(kids[2..], dest, file);
      } else {
        assert Select(kids, dest, file) == Select(kids[2..], dest, file);
      }
    }
  }

  /** A sound source whose references are all in paths and components splits into sound files. */
  lemma SoundSourceSplitsSoundly(doc: Sections, file: string)
    requires GoodComponents(doc) && DocAliasFree(doc) && NoDangling(doc)
    requires doc.paths.kind == Mapping && SideRefs(doc, file) == {}
    ensures Passes(Document(FileSections(doc, file)))
  {
    SplitPassesVerify(doc, file);
    PathRefs(doc.paths.kids, Destination, file);
    var all := RefsOf(doc.paths) + RefsOf(doc.components);
    forall r | r in all ensures Uses(Comps(doc), r) <= all {
      UsesWithin(Comps(doc), r);
    }
    ClosureWithin(Comps(doc), RefsOf(NewMap(PathsFor(doc.paths.kids, file))), all);
  }
}
