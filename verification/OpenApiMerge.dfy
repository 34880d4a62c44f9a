/** The merge mode of tools/openapi-split/main.go, on alias-free documents. */
module OpenApiMerge {
  import opened Wrappers
  import opened YamlTree
  import opened OpenApiRefs
  import opened OpenApiSplit

  const SECTION_ORDER: seq<string> :=
    ["securitySchemes", "parameters", "responses", "requestBodies", "headers", "schemas"]

  // ---------------------------------------------------------------------------------------
  // What the loops accumulate
  // ---------------------------------------------------------------------------------------

  /** The complete entries of a mapping's content. */
  function WholeEntries(kids: seq<Tree>): seq<Tree> {
    if |kids| < 2 then [] else [kids[0], kids[1]] + WholeEntries(kids[2..])
  }

  function KidsOf(root: Tree, key: string): seq<Tree> {
    match MapGet(Some(root), key)
    case None => []
    case Some(t) => t.kids
  }

  /** The paths of all the documents, one after the other. */
  function MergedPaths(docs: seq<Tree>): seq<Tree> {
    if docs == [] then []
    else MergedPaths(docs[..|docs| - 1]) + WholeEntries(KidsOf(docs[|docs| - 1], "paths"))
  }

  /** Adds the entries whose name is new. */
  function AddEntries(acc: seq<Tree>, kids: seq<Tree>): seq<Tree>
    decreases kids
  {
    if |kids| < 2 then acc
    else
      var acc' := if FindKey(acc, kids[0].value).Some? then acc else acc + [ScalarTree(kids[0].value), kids[1]];
      AddEntries(acc', kids[2..])
  }

  /** Adds the entries of one section, out of the components of one document. */
  function AddSection(acc: seq<Tree>, kids: seq<Tree>, section: string): seq<Tree>
    decreases kids
  {
    if |kids| < 2 then acc
    else AddSection(if kids[0].value == section then AddEntries(acc, kids[1].kids) else acc, kids[2..], section)
  }

  function MergedSection(docs: seq<Tree>, section: string): seq<Tree> {
    if docs == [] then []
    else AddSection(MergedSection(docs[..|docs| - 1], section), KidsOf(docs[|docs| - 1], "components"), section)
  }

  function MergedComponents(docs: seq<Tree>, order: seq<string>): seq<Tree> {
    if order == [] then []
    else
      var kids := MergedSection(docs, order[0]);
      Entry(order[0], if kids == [] then None else Some(NewMap(kids))) + MergedComponents(docs, order[1..])
  }

  function FindTag(elems: seq<Tree>, name: string): Option<Tree> {
    if elems == [] then None
    else if ScalarChild(elems[0], "name") == name then Some(elems[0])
    else FindTag(elems[1..], name)
  }

  /** Adds the tags that have a name, and a new one. */
  function AddTags(acc: seq<Tree>, elems: seq<Tree>): seq<Tree>
    decreases elems
  {
    if elems == [] then acc
    else
      var name := ScalarChild(elems[0], "name");
      AddTags(if name != "" && FindTag(acc, name).None? then acc + [elems[0]] else acc, elems[1..])
  }

  function MergedTags(docs: seq<Tree>): seq<Tree> {
    if docs == [] then []
    else AddTags(MergedTags(docs[..|docs| - 1]), KidsOf(docs[|docs| - 1], "tags"))
  }

  /** openapi, info and servers, taken together from the first document that has an openapi node. */
  datatype Header = Header(openapi: Option<Tree>, info: Option<Tree>, servers: Option<Tree>)

  function NextHeader(h: Header, root: Tree): Header {
    if h.openapi.Some? then h
    else Header(MapGet(Some(root), "openapi"), MapGet(Some(root), "info"), MapGet(Some(root), "servers"))
  }

  function MergedHeader(docs: seq<Tree>): Header {
    if docs == [] then Header(None, None, None)
    else NextHeader(MergedHeader(docs[..|docs| - 1]), docs[|docs| - 1])
  }

  function Assemble(h: Header, tags: seq<Tree>, paths: seq<Tree>, components: seq<Tree>): Tree {
    NewMap(Entry("openapi", h.openapi)
           + (Entry("info", if h.info.None? then None else Some(SetTitle(h.info.value, "Qeet ID API")))
           + (Entry("servers", h.servers)
           + (Entry("tags", if tags == [] then None else Some(Tree(Sequence, "!!seq", "", tags)))
           + (Entry("paths", Some(NewMap(paths))) + Entry("components", Some(NewMap(components))))))))
  }

  function MergedDocument(docs: seq<Tree>): Tree {
    Assemble(MergedHeader(docs), MergedTags(docs), MergedPaths(docs), MergedComponents(docs, SECTION_ORDER))
  }

  // ---------------------------------------------------------------------------------------
  // The loops
  // ---------------------------------------------------------------------------------------

  datatype MergeError = NoSpecs | DuplicatePath(path: string)

  /** doMerge, from the expanded documents in the order of their file names. */
  method DoMerge(docs: seq<Tree>) returns (r: Result<Tree, MergeError>)
    ensures docs == [] ==> r == Err(NoSpecs)
    ensures docs != [] ==> (r.Ok? <==> DistinctKeys(MergedPaths(docs)))
    ensures r.Ok? ==> r.value == MergedDocument(docs)
  {
    if |docs| == 0 {
      return Err(NoSpecs);
    }
    var paths: seq<Tree>, tags: seq<Tree> := [], [];
    var header := Header(None, None, None);
    var comps: map<string, seq<Tree>> := map[];
    for i := 0 to |docs|
      invariant paths == MergedPaths(docs[..i]) && DistinctKeys(paths) && |paths| % 2 == 0
      invariant tags == MergedTags(docs[..i]) && header == MergedHeader(docs[..i])
      invariant forall s :: SectionOf(comps, s) == MergedSection(docs[..i], s)
    {
      assert docs[..i + 1][..i] == docs[..i];
      var root := docs[i];
      header := NextHeader(header, root);
      var dup;
      paths, dup := AddPaths(paths, KidsOf(root, "paths"));
      if dup.Some? {
        DuplicateStays(docs, i + 1);
        return Err(DuplicatePath(dup.value));
      }
      tags := AddTagsLoop(tags, KidsOf(root, "tags"));
      comps := AddComponents(comps, KidsOf(root, "components"));
    }
    assert docs[..|docs|] == docs;
    var components := InOrder(comps, SECTION_ORDER, docs);
    return Ok(Assemble(header, tags, paths, components));
  }

  /** The loop over the paths of one document; dup is the first path seen before. */
  method AddPaths(paths: seq<Tree>, kids: seq<Tree>) returns (paths': seq<Tree>, dup: Option<string>)
    requires |paths| % 2 == 0 && DistinctKeys(paths)
    ensures dup.None? ==> paths' == paths + WholeEntries(kids) && |paths'| % 2 == 0 && DistinctKeys(paths')
    ensures dup.Some? ==> !DistinctKeys(paths + WholeEntries(kids))
  {
    paths', dup := paths, None;
    var i := 0;
    while i + 1 < |kids|
      invariant 0 <= i <= |kids|
      invariant |paths'| % 2 == 0 && DistinctKeys(paths')
      invariant paths' + WholeEntries(kids[i..]) == paths + WholeEntries(kids)
    {
      assert kids[i..][2..] == kids[i + 2..];
      var k, v := kids[i], kids[i + 1];
      ghost var rest := WholeEntries(kids[i + 2..]);
      DistinctAppend(paths', k, v);
      assert paths' + ([k, v] + rest) == paths' + [k, v] + rest;
      if FindKey(paths', k.value).Some? {
        dup := Some(k.value);
        if DistinctKeys(paths' + [k, v] + rest) {
          DistinctPrefix(paths' + [k, v], rest);
        }
        return;
      }
      paths' := paths' + [k, v];
      i := i + 2;
    }
    assert paths' + [] == paths';
  }

  method AddTagsLoop(acc: seq<Tree>, elems: seq<Tree>) returns (tags: seq<Tree>)
    ensures tags == AddTags(acc, elems)
  {
    tags := acc;
    for i := 0 to |elems|
      invariant AddTags(tags, elems[i..]) == AddTags(acc, elems)
    {
      assert elems[i..][1..] == elems[i + 1..];
      var name := ScalarChild(elems[i], "name");
      if name != "" && FindTag(tags, name).None? {
        tags := tags + [elems[i]];
      }
    }
  }

  function SectionOf(comps: map<string, seq<Tree>>, section: string): seq<Tree> {
    if section in comps then comps[section] else []
  }

  /** The loop over the sections of one document. */
  method AddComponents(comps: map<string, seq<Tree>>, kids: seq<Tree>) returns (comps': map<string, seq<Tree>>)
    ensures forall s :: SectionOf(comps', s) == AddSection(SectionOf(comps, s), kids, s)
  {
    comps' := comps;
    var i := 0;
    while i + 1 < |kids|
      invariant 0 <= i <= |kids|
      invariant forall s :: AddSection(SectionOf(comps', s), kids[i..], s) == AddSection(SectionOf(comps, s), kids, s)
    {
      assert kids[i..][2..] == kids[i + 2..];
      var section := kids[i].value;
      var entries := AddEntriesLoop(SectionOf(comps', section), kids[i + 1].kids);
      comps' := comps'[section := entries];
      i := i + 2;
    }
  }

  method AddEntriesLoop(acc: seq<Tree>, kids: seq<Tree>) returns (entries: seq<Tree>)
    ensures entries == AddEntries(acc, kids)
  {
    entries := acc;
    var j := 0;
    while j + 1 < |kids|
      invariant 0 <= j <= |kids|
      invariant AddEntries(entries, kids[j..]) == AddEntries(acc, kids)
    {
      assert kids[j..][2..] == kids[j + 2..];
      var name := kids[j].value;
      if FindKey(entries, name).None? {
        entries := entries + [ScalarTree(name), kids[j + 1]];
      }
      j := j + 2;
    }
  }

  lemma NextSection(out: seq<Tree>, docs: seq<Tree>, order: seq<string>, i: nat)
    requires i < |order|
    ensures var kids := MergedSection(docs, order[i]);
            out + MergedComponents(docs, order[i..]) ==
            (if kids == [] then out else out + [ScalarTree(order[i]), NewMap(kids)]) +
            MergedComponents(docs, order[i + 1..])
  {
    assert order[i..][1..] == order[i + 1..] && order[i..][0] == order[i];
  }

  /** The loop over the sections that are kept. */
  method InOrder(comps: map<string, seq<Tree>>, order: seq<string>, ghost docs: seq<Tree>) returns (out: seq<Tree>)
    requires forall s :: SectionOf(comps, s) == MergedSection(docs, s)
    ensures out == MergedComponents(docs, order)
  {
    out := [];
    for i := 0 to |order|
      invariant out + MergedComponents(docs, order[i..]) == MergedComponents(docs, order)
    {
      NextSection(out, docs, order, i);
      var kids := SectionOf(comps, order[i]);
      if |kids| != 0 {
        out := out + [ScalarTree(order[i]), NewMap(kids)];
      }
    }
  }

  // ---------------------------------------------------------------------------------------
  // Keys of concatenations
  // ---------------------------------------------------------------------------------------

  lemma {:induction false} FindAppend(a: seq<Tree>, b: seq<Tree>, key: string)
    requires |a| % 2 == 0
    ensures FindKey(a + b, key) == if FindKey(a, key).Some? then FindKey(a, key) else FindKey(b, key)
  {
    if a == [] {
      assert a + b == b;
    } else {
      FindAppend(a[2..], b, key);
      assert (a + b)[2..] == a[2..] + b;
    }
  }

  lemma {:induction false} DistinctAppend(a: seq<Tree>, k: Tree, v: Tree)
    requires |a| % 2 == 0
    ensures DistinctKeys(a + [k, v]) <==> DistinctKeys(a) && FindKey(a, k.value).None?
  {
    if a == [] {
      assert a + [k, v] == [k, v] && FindKey([], k.value).None?;
    } else {
      DistinctAppend(a[2..], k, v);
      FindAppend(a[2..], [k, v], a[0].value);
      assert (a + [k, v])[2..] == a[2..] + [k, v];
    }
  }

  lemma {:induction false} DistinctPrefix(a: seq<Tree>, b: seq<Tree>)
    requires |a| % 2 == 0 && DistinctKeys(a + b)
    ensures DistinctKeys(a)
  {
    if a != [] {
      assert (a + b)[2..] == a[2..] + b;
      DistinctPrefix(a[2..], b);
      FindAppend(a[2..], b, a[0].value);
    }
  }

  lemma {:induction false} WholeIsEven(kids: seq<Tree>)
    ensures |WholeEntries(kids)| % 2 == 0
  {
    if |kids| >= 2 {
      WholeIsEven(kids[2..]);
    }
  }

  lemma {:induction false} MergedIsEven(docs: seq<Tree>)
    ensures |MergedPaths(docs)| % 2 == 0
  {
    if docs != [] {
      MergedIsEven(docs[..|docs| - 1]);
      WholeIsEven(KidsOf(docs[|docs| - 1], "paths"));
    }
  }

  /** A path that occurs twice in the first documents occurs twice in all of them. */
  lemma {:induction false} DuplicateStays(docs: seq<Tree>, i: nat)
    requires i <= |docs| && !DistinctKeys(MergedPaths(docs[..i]))
    ensures !DistinctKeys(MergedPaths(docs))
  {
    if i < |docs| {
      var init := docs[..|docs| - 1];
      assert init[..i] == docs[..i];
      DuplicateStays(init, i);
      MergedIsEven(init);
      if DistinctKeys(MergedPaths(docs)) {
        DistinctPrefix(MergedPaths(init), WholeEntries(KidsOf(docs[|docs| - 1], "paths")));
      }
    } else {
      assert docs[..i] == docs;
    }
  }
}
