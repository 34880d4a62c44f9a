/** Merging the files of the split mode gives the source document back. */
module OpenApiRoundTrip {
  import opened Wrappers
  import opened YamlTree
  import opened OpenApiRefs
  import opened OpenApiSplit
  import opened OpenApiVerify
  import opened OpenApiMerge

  /** The five files in the order of their names, in which the merge mode reads them. */
  const MERGE_ORDER: seq<string> := ["auth", "developer", "federation", "management", "operations"]

  ghost function FilesWritten(doc: Sections, order: seq<string>): seq<Tree> {
    seq(|order|, i requires 0 <= i < |order| => Document(FileSections(doc, order[i])))
  }

  lemma FilesWrittenInit(doc: Sections, order: seq<string>)
    requires order != []
    ensures FilesWritten(doc, order)[..|order| - 1] == FilesWritten(doc, order[..|order| - 1])
  {
  }

  /** The sections of an output file, as the merge mode finds them. */
  lemma FileKids(doc: Sections, file: string)
    ensures var root := Document(FileSections(doc, file));
            && KidsOf(root, "paths") == PathsFor(doc.paths.kids, file)
            && KidsOf(root, "components") == BuildComponents(doc.components.kids, FileClosure(doc, file))
  {
    FindInDocument(FileSections(doc, file), "paths");
    FindInDocument(FileSections(doc, file), "components");
  }

  // ---------------------------------------------------------------------------------------
  // Paths: nothing lost, nothing twice
  // ---------------------------------------------------------------------------------------

  function Pairs(kids: seq<Tree>): seq<(Tree, Tree)> {
    if |kids| < 2 then [] else [(kids[0], kids[1])] + Pairs(kids[2..])
  }

  function Keys(kids: seq<Tree>): seq<string> {
    if |kids| < 2 then [] else [kids[0].value] + Keys(kids[2..])
  }

  /** The paths of the given files, one after the other. */
  function SelectAll(kids: seq<Tree>, dest: Tree -> Option<string>, order: seq<string>): seq<Tree> {
    if order == [] then []
    else SelectAll(kids, dest, order[..|order| - 1]) + Select(kids, dest, order[|order| - 1])
  }

  lemma EntryFirst(k: Tree, v: Tree, rest: seq<Tree>)
    ensures WholeEntries([k, v] + rest) == [k, v] + WholeEntries(rest)
    ensures Pairs([k, v] + rest) == [(k, v)] + Pairs(rest) && Keys([k, v] + rest) == [k.value] + Keys(rest)
    ensures [] + rest == rest
  {
    assert ([k, v] + rest)[2..] == rest;
  }

  lemma {:induction false} SelectWhole(kids: seq<Tree>, dest: Tree -> Option<string>, file: string)
    ensures WholeEntries(Select(kids, dest, file)) == Select(kids, dest, file)
    ensures |Select(kids, dest, file)| % 2 == 0
  {
    if |kids| >= 2 {
      SelectWhole(kids[2..], dest, file);
      EntryFirst(kids[0], kids[1], Select(kids[2..], dest, file));
    }
  }

  lemma {:induction false} SelectAllEven(kids: seq<Tree>, dest: Tree -> Option<string>, order: seq<string>)
    ensures |SelectAll(kids, dest, order)| % 2 == 0
  {
    if order != [] {
      SelectAllEven(kids, dest, order[..|order| - 1]);
      SelectWhole(kids, dest, order[|order| - 1]);
    }
  }

  lemma {:induction false} MergedPathsAre(doc: Sections, order: seq<string>)
    ensures MergedPaths(FilesWritten(doc, order)) == SelectAll(doc.paths.kids, Destination, order)
  {
    if order != [] {
      var init, last := order[..|order| - 1], order[|order| - 1];
      MergedPathsAre(doc, init);
      FilesWrittenInit(doc, order);
      FileKids(doc, last);
      SelectWhole(doc.paths.kids, Destination, last);
    }
  }

  lemma {:induction false} PairsAppend(a: seq<Tree>, b: seq<Tree>)
    requires |a| % 2 == 0
    ensures Pairs(a + b) == Pairs(a) + Pairs(b) && Keys(a + b) == Keys(a) + Keys(b)
  {
    if a == [] {
      assert a + b == b;
    } else {
      PairsAppend(a[2..], b);
      assert (a + b)[2..] == a[2..] + b;
      assert (a + b)[0] == a[0] && (a + b)[1] == a[1];
      ConsAppend((a[0], a[1]), Pairs(a[2..]), Pairs(b));
      ConsAppend(a[0].value, Keys(a[2..]), Keys(b));
    }
  }

  lemma ConsAppend<T>(x: T, p: seq<T>, q: seq<T>)
    ensures ([x] + p) + q == [x] + (p + q)
  {
  }

  lemma {:induction false} SelectedPairs(kids: seq<Tree>, dest: Tree -> Option<string>, file: string, p: (Tree, Tree))
    ensures p in Pairs(Select(kids, dest, file)) <==> p in Pairs(kids) && dest(p.1) == Some(file)
  {
    if |kids| >= 2 {
      SelectedPairs(kids[2..], dest, file, p);
      EntryFirst(kids[0], kids[1], Select(kids[2..], dest, file));
    }
  }

  /** A written file has exactly the paths of the source that lead to it, and its own title. */
  lemma FileHolds(doc: Sections, file: string, p: (Tree, Tree))
    ensures var root := Document(FileSections(doc, file));
            && (p in Pairs(KidsOf(root, "paths")) <==> p in Pairs(doc.paths.kids) && LeadsTo(p.1, file))
            && (|doc.info.kids| % 2 == 0 ==> FindKey(KidsOf(root, "info"), "title") == Some(ScalarTree(TitleOf(file))))
  {
    FileKids(doc, file);
    FindInDocument(FileSections(doc, file), "info");
    SelectedPairs(doc.paths.kids, Destination, file, p);
    DestinationIs(p.1, file);
    BelongsIs(p.1, file);
    if |doc.info.kids| % 2 == 0 {
      SetScalarIs(doc.info.kids, "title", TitleOf(file), "title");
    }
  }

  predicate Once(order: seq<string>) {
    forall i, j :: 0 <= i < j < |order| ==> order[i] != order[j]
  }

  function Single<T>(b: bool, t: T): multiset<T> {
    if b then multiset{t} else multiset{}
  }

  function PairBag(kids: seq<Tree>): multiset<(Tree, Tree)> { multiset(Pairs(kids)) }

  function KeyBag(kids: seq<Tree>): multiset<string> { multiset(Keys(kids)) }

  lemma PathsOfFile(kids: seq<Tree>, dest: Tree -> Option<string>, file: string)
    requires |kids| >= 2
    ensures PairBag(Select(kids, dest, file)) ==
            Single(dest(kids[1]) == Some(file), (kids[0], kids[1])) + PairBag(Select(kids[2..], dest, file))
    ensures KeyBag(Select(kids, dest, file)) ==
            Single(dest(kids[1]) == Some(file), kids[0].value) + KeyBag(Select(kids[2..], dest, file))
  {
    EntryFirst(kids[0], kids[1], Select(kids[2..], dest, file));
  }

  lemma FilesApart(kids: seq<Tree>, dest: Tree -> Option<string>, order: seq<string>)
    requires order != []
    ensures var init, last := order[..|order| - 1], order[|order| - 1];
            && PairBag(SelectAll(kids, dest, order)) ==
               PairBag(SelectAll(kids, dest, init)) + PairBag(Select(kids, dest, last))
            && KeyBag(SelectAll(kids, dest, order)) ==
               KeyBag(SelectAll(kids, dest, init)) + KeyBag(Select(kids, dest, last))
  {
    var init, last := order[..|order| - 1], order[|order| - 1];
    SelectAllEven(kids, dest, init);
    PairsAppend(SelectAll(kids, dest, init), Select(kids, dest, last));
  }

  function PlacedPair(kids: seq<Tree>, dest: Tree -> Option<string>, order: seq<string>): multiset<(Tree, Tree)>
    requires |kids| >= 2
  {
    Single(dest(kids[1]).Some? && dest(kids[1]).value in order, (kids[0], kids[1]))
  }

  function PlacedKey(kids: seq<Tree>, dest: Tree -> Option<string>, order: seq<string>): multiset<string>
    requires |kids| >= 2
  {
    Single(dest(kids[1]).Some? && dest(kids[1]).value in order, kids[0].value)
  }

  /** One more path of the source appears once, in the file it goes to. */
  lemma {:induction false} OneMorePath(kids: seq<Tree>, dest: Tree -> Option<string>, order: seq<string>)
    requires |kids| >= 2 && Once(order)
    ensures PairBag(SelectAll(kids, dest, order)) ==
            PlacedPair(kids, dest, order) + PairBag(SelectAll(kids[2..], dest, order))
    ensures KeyBag(SelectAll(kids, dest, order)) ==
            PlacedKey(kids, dest, order) + KeyBag(SelectAll(kids[2..], dest, order))
    decreases |order|
  {
    if order != [] {
      var init, last := order[..|order| - 1], order[|order| - 1];
      assert order == init + [last];
      OneMorePath(kids, dest, init);
      FilesApart(kids, dest, order);
      FilesApart(kids[2..], dest, order);
      PathsOfFile(kids, dest, last);
      SingleOf(dest(kids[1]), init, last, (kids[0], kids[1]));
      SingleOf(dest(kids[1]), init, last, kids[0].value);
      Regroup(PlacedPair(kids, dest, init), PairBag(SelectAll(kids[2..], dest, init)),
              Single(dest(kids[1]) == Some(last), (kids[0], kids[1])), PairBag(Select(kids[2..], dest, last)));
      Regroup(PlacedKey(kids, dest, init), KeyBag(SelectAll(kids[2..], dest, init)),
              Single(dest(kids[1]) == Some(last), kids[0].value), KeyBag(Select(kids[2..], dest, last)));
    }
  }

  lemma Regroup<T>(s1: multiset<T>, a: multiset<T>, s2: multiset<T>, b: multiset<T>)
    ensures (s1 + a) + (s2 + b) == (s1 + s2) + (a + b)
  {
  }

  lemma SingleOf<T>(d: Option<string>, init: seq<string>, last: string, t: T)
    requires last !in init
    ensures Single(d.Some? && d.value in init + [last], t) ==
            Single(d.Some? && d.value in init, t) + Single(d == Some(last), t)
  {
  }

  predicate AllPlaced(kids: seq<Tree>, dest: Tree -> Option<string>, order: seq<string>) {
    |kids| >= 2 ==> dest(kids[1]).Some? && dest(kids[1]).value in order && AllPlaced(kids[2..], dest, order)
  }

  /** The files together hold every path of the source once. */
  lemma {:induction false} PathsArePartitioned(kids: seq<Tree>, dest: Tree -> Option<string>, order: seq<string>)
    requires AllPlaced(kids, dest, order) && Once(order)
    ensures PairBag(SelectAll(kids, dest, order)) == PairBag(kids)
    ensures KeyBag(SelectAll(kids, dest, order)) == KeyBag(kids)
  {
    if |kids| < 2 {
      NoPaths(kids, dest, order);
    } else {
      PathsArePartitioned(kids[2..], dest, order);
      OneMorePath(kids, dest, order);
      BagFirst(kids);
    }
  }

  lemma BagFirst(kids: seq<Tree>)
    requires |kids| >= 2
    ensures PairBag(kids) == multiset{(kids[0], kids[1])} + PairBag(kids[2..])
    ensures KeyBag(kids) == multiset{kids[0].value} + KeyBag(kids[2..])
  {
  }

  lemma {:induction false} NoPaths(kids: seq<Tree>, dest: Tree -> Option<string>, order: seq<string>)
    requires |kids| < 2
    ensures SelectAll(kids, dest, order) == []
  {
    if order != [] {
      NoPaths(kids, dest, order[..|order| - 1]);
    }
  }

  lemma {:induction false} ClassifiedIsPlaced(kids: seq<Tree>)
    requires AllClassify(kids)
    ensures AllPlaced(kids, Destination, MERGE_ORDER)
  {
    if |kids| >= 2 {
      DestinationIs(kids[1], Destination(kids[1]).value);
      SameFiles(Destination(kids[1]).value);
      ClassifiedIsPlaced(kids[2..]);
    }
  }

  /** The files are the same in both orders. */
  lemma SameFiles(f: string)
    ensures f in FILE_ORDER <==> f in MERGE_ORDER
  {
    assert FILE_ORDER[0] == MERGE_ORDER[0] && FILE_ORDER[1] == MERGE_ORDER[3] && FILE_ORDER[2] == MERGE_ORDER[2];
    assert FILE_ORDER[3] == MERGE_ORDER[1] && FILE_ORDER[4] == MERGE_ORDER[4];
  }

  lemma {:induction false} FoundIsCounted(kids: seq<Tree>, key: string)
    ensures FindKey(kids, key).Some? <==> key in KeyBag(kids)
  {
    if |kids| >= 2 {
      FoundIsCounted(kids[2..], key);
      BagFirst(kids);
    }
  }

  predicate AtMostOnce(m: multiset<string>) {
    forall k :: k in m ==> m[k] == 1
  }

  /** Whether keys repeat depends only on how often each occurs. */
  lemma {:induction false} DistinctIsCounted(kids: seq<Tree>)
    ensures DistinctKeys(kids) <==> AtMostOnce(KeyBag(kids))
  {
    if |kids| >= 2 {
      var k0, rest := kids[0].value, KeyBag(kids[2..]);
      DistinctIsCounted(kids[2..]);
      FoundIsCounted(kids[2..], k0);
      BagFirst(kids);
      if k0 in rest {
        assert k0 in KeyBag(kids) && KeyBag(kids)[k0] > 1;
      }
      if !AtMostOnce(rest) {
        var k :| k in rest && rest[k] != 1;
        assert k in KeyBag(kids) && KeyBag(kids)[k] > 1;
      }
    }
  }

  lemma MergeOrderOnce()
    ensures Once(MERGE_ORDER)
  {
    assert MERGE_ORDER[0][0] == 'a' && MERGE_ORDER[1][0] == 'd' && MERGE_ORDER[2][0] == 'f';
    assert MERGE_ORDER[3][0] == 'm' && MERGE_ORDER[4][0] == 'o';
  }

  lemma SelectionKeeps(kids: seq<Tree>, dest: Tree -> Option<string>, order: seq<string>)
    requires AllPlaced(kids, dest, order) && Once(order)
    ensures DistinctKeys(SelectAll(kids, dest, order)) <==> DistinctKeys(kids)
    ensures PairBag(SelectAll(kids, dest, order)) == PairBag(kids)
  {
    PathsArePartitioned(kids, dest, order);
    DistinctIsCounted(kids);
    DistinctIsCounted(SelectAll(kids, dest, order));
  }

  /** The merged paths are those of the source, so a duplicate is reported exactly if the source has one. */
  lemma MergeKeepsPaths(doc: Sections)
    requires AllClassify(doc.paths.kids)
    ensures var merged := MergedPaths(FilesWritten(doc, MERGE_ORDER));
            && (DistinctKeys(merged) <==> DistinctKeys(doc.paths.kids))
            && multiset(Pairs(merged)) == multiset(Pairs(doc.paths.kids))
  {
    MergedPathsAre(doc, MERGE_ORDER);
    ClassifiedIsPlaced(doc.paths.kids);
    MergeOrderOnce();
    SelectionKeeps(doc.paths.kids, Destination, MERGE_ORDER);
  }

  // ---------------------------------------------------------------------------------------
  // Components: those some path needs, each as it was
  // ---------------------------------------------------------------------------------------

  lemma {:induction false} FindAdded(acc: seq<Tree>, kids: seq<Tree>, name: string)
    requires |acc| % 2 == 0
    ensures |AddEntries(acc, kids)| % 2 == 0
    ensures FindKey(AddEntries(acc, kids), name) ==
            if FindKey(acc, name).Some? then FindKey(acc, name) else FindKey(kids, name)
    decreases kids
  {
    if |kids| >= 2 {
      var entry := [ScalarTree(kids[0].value), kids[1]];
      FindAppend(acc, entry, name);
      var acc' := if FindKey(acc, kids[0].value).Some? then acc else acc + entry;
      FindAdded(acc', kids[2..], name);
      assert entry[2..] == [] && FindKey([], name).None?;
    }
  }

  lemma {:induction false} NothingAdded(acc: seq<Tree>, kids: seq<Tree>, section: string)
    requires FindKey(kids, section).None?
    ensures AddSection(acc, kids, section) == acc
    decreases kids
  {
    if |kids| >= 2 {
      NothingAdded(acc, kids[2..], section);
    }
  }

  lemma {:induction false} SectionAdded(acc: seq<Tree>, kids: seq<Tree>, section: string)
    requires DistinctKeys(kids)
    ensures AddSection(acc, kids, section) ==
            match FindKey(kids, section)
            case None => acc
            case Some(sec) => AddEntries(acc, sec.kids)
    decreases kids
  {
    if |kids| >= 2 {
      if kids[0].value == section {
        NothingAdded(AddEntries(acc, kids[1].kids), kids[2..], section);
      } else {
        SectionAdded(acc, kids[2..], section);
      }
    }
  }

  /** One of the files keeps the component. */
  ghost predicate KeptBySome(doc: Sections, order: seq<string>, r: Reference) {
    order != [] &&
      (KeptBySome(doc, order[..|order| - 1], r) || Kept(FileClosure(doc, order[|order| - 1]), r.section, r.name))
  }

  /** Adding the section of one more file. */
  lemma FindAddedFile(acc: seq<Tree>, doc: Sections, closure: set<Reference>, r: Reference)
    requires GoodComponents(doc) && |acc| % 2 == 0
    ensures var acc' := AddSection(acc, BuildComponents(doc.components.kids, closure), r.section);
            && |acc'| % 2 == 0
            && FindKey(acc', r.name) ==
               if FindKey(acc, r.name).Some? then FindKey(acc, r.name)
               else if Kept(closure, r.section, r.name) then Lookup(Comps(doc), r) else None
  {
    var kids := BuildComponents(doc.components.kids, closure);
    LookupBuilt(doc, closure, r);
    BuiltKeys(doc.components.kids, closure);
    SectionAdded(acc, kids, r.section);
    FindBuilt(doc.components.kids, closure, r.section);
    if FindKey(kids, r.section).Some? {
      FindAdded(acc, FindKey(kids, r.section).value.kids, r.name);
    }
  }

  lemma {:induction false} FoundInFiles(doc: Sections, order: seq<string>, r: Reference)
    requires GoodComponents(doc)
    ensures |MergedSection(FilesWritten(doc, order), r.section)| % 2 == 0
    ensures FindKey(MergedSection(FilesWritten(doc, order), r.section), r.name) ==
            if KeptBySome(doc, order, r) then Lookup(Comps(doc), r) else None
    decreases |order|
  {
    if order != [] {
      var init, last := order[..|order| - 1], order[|order| - 1];
      FoundInFiles(doc, init, r);
      FilesWrittenInit(doc, order);
      FileKids(doc, last);
      FindAddedFile(MergedSection(FilesWritten(doc, init), r.section), doc, FileClosure(doc, last), r);
    }
  }

  lemma {:induction false} FindOrdered(docs: seq<Tree>, order: seq<string>, section: string)
    ensures FindKey(MergedComponents(docs, order), section) ==
            if section in order && MergedSection(docs, section) != [] then Some(NewMap(MergedSection(docs, section)))
            else None
  {
    if order != [] {
      FindOrdered(docs, order[1..], section);
      var kids := MergedSection(docs, order[0]);
      SkipEntry(order[0], if kids == [] then None else Some(NewMap(kids)), MergedComponents(docs, order[1..]), section);
      assert section in order <==> section == order[0] || section in order[1..];
    }
  }

  // References of the paths, file by file and all together.

  lemma {:induction false} RefsByPair(kids: seq<Tree>, x: Reference)
    ensures x in RefsOfEntries(kids) <==> exists p :: p in PairBag(kids) && x in OwnRef(p.0, p.1) + RefsOf(p.1)
  {
    if |kids| >= 2 {
      RefsByPair(kids[2..], x);
      BagFirst(kids);
      if x in OwnRef(kids[0], kids[1]) + RefsOf(kids[1]) {
        assert (kids[0], kids[1]) in PairBag(kids);
      }
      if x in RefsOfEntries(kids[2..]) {
        var p :| p in PairBag(kids[2..]) && x in OwnRef(p.0, p.1) + RefsOf(p.1);
        assert p in PairBag(kids);
      }
    }
  }

  lemma SameBagSameRefs(a: seq<Tree>, b: seq<Tree>)
    requires PairBag(a) == PairBag(b)
    ensures RefsOfEntries(a) == RefsOfEntries(b)
  {
    forall x ensures x in RefsOfEntries(a) <==> x in RefsOfEntries(b) {
      RefsByPair(a, x);
      RefsByPair(b, x);
    }
  }

  lemma {:induction false} RefsAppend(a: seq<Tree>, b: seq<Tree>)
    requires |a| % 2 == 0
    ensures RefsOfEntries(a + b) == RefsOfEntries(a) + RefsOfEntries(b)
  {
    if a == [] {
      assert a + b == b;
    } else {
      RefsAppend(a[2..], b);
      assert (a + b)[2..] == a[2..] + b;
    }
  }

  ghost function RefClosure(doc: Sections, kids: seq<Tree>): set<Reference> {
    Closure(Comps(doc), RefsOfEntries(kids))
  }

  lemma {:induction false} KeptIsReached(doc: Sections, order: seq<string>, r: Reference)
    requires r.section != "securitySchemes"
    ensures KeptBySome(doc, order, r) <==> r in RefClosure(doc, SelectAll(doc.paths.kids, Destination, order))
    decreases |order|
  {
    if order == [] {
      ClosureEmpty(Comps(doc));
    } else {
      var init, last := order[..|order| - 1], order[|order| - 1];
      KeptIsReached(doc, init, r);
      SelectAllEven(doc.paths.kids, Destination, init);
      ClosureOfBoth(doc, SelectAll(doc.paths.kids, Destination, init), PathsFor(doc.paths.kids, last));
    }
  }

  lemma ClosureOfBoth(doc: Sections, a: seq<Tree>, b: seq<Tree>)
    requires |a| % 2 == 0
    ensures RefClosure(doc, a + b) == RefClosure(doc, a) + RefClosure(doc, b)
  {
    RefsAppend(a, b);
    ClosureUnion(Comps(doc), RefsOfEntries(a), RefsOfEntries(b));
  }

  /** The components a merged document has: every security scheme, and what some path reaches. */
  ghost predicate Needed(doc: Sections, r: Reference) {
    r.section == "securitySchemes" || r in Closure(Comps(doc), RefsOf(doc.paths))
  }

  lemma KeptIsNeeded(doc: Sections, r: Reference)
    requires AllClassify(doc.paths.kids) && doc.paths.kind == Mapping
    ensures KeptBySome(doc, MERGE_ORDER, r) <==> Needed(doc, r)
  {
    if r.section == "securitySchemes" {
      assert Kept(FileClosure(doc, MERGE_ORDER[4]), r.section, r.name);
    } else {
      var all := SelectAll(doc.paths.kids, Destination, MERGE_ORDER);
      KeptIsReached(doc, MERGE_ORDER, r);
      ClassifiedIsPlaced(doc.paths.kids);
      MergeOrderOnce();
      PathsArePartitioned(doc.paths.kids, Destination, MERGE_ORDER);
      SameBagSameRefs(all, doc.paths.kids);
    }
  }

  // ---------------------------------------------------------------------------------------
  // Tags and header
  // ---------------------------------------------------------------------------------------

  lemma {:induction false} FindTagAppend(a: seq<Tree>, e: Tree, name: string)
    ensures FindTag(a + [e], name) ==
            if FindTag(a, name).Some? then FindTag(a, name)
            else if ScalarChild(e, "name") == name then Some(e) else None
  {
    if a == [] {
      assert a + [e] == [e] && [e][1..] == [];
    } else {
      FindTagAppend(a[1..], e, name);
      assert (a + [e])[1..] == a[1..] + [e];
    }
  }

  lemma {:induction false} FindTagAdded(acc: seq<Tree>, elems: seq<Tree>, name: string)
    ensures FindTag(AddTags(acc, elems), name) ==
            if FindTag(acc, name).Some? || name == "" then FindTag(acc, name) else FindTag(elems, name)
    decreases elems
  {
    if elems != [] {
      var own := ScalarChild(elems[0], "name");
      FindTagAppend(acc, elems[0], name);
      FindTagAdded(if own != "" && FindTag(acc, own).None? then acc + [elems[0]] else acc, elems[1..], name);
    }
  }

  lemma {:induction false} FindTagKept(elems: seq<Tree>, used: set<string>, name: string)
    ensures FindTag(KeepTags(elems, used), name) == if name in used then FindTag(elems, name) else None
  {
    if elems != [] {
      FindTagKept(elems[1..], used, name);
      var rest := KeepTags(elems[1..], used);
      if ScalarChild(elems[0], "name") in used {
        assert KeepTags(elems, used)[1..] == rest;
      } else {
        assert KeepTags(elems, used) == rest;
      }
    }
  }

  /** Some path of the files uses the tag. */
  predicate UsedBySome(kids: seq<Tree>, order: seq<string>, name: string) {
    order != [] && (UsedBySome(kids, order[..|order| - 1], name) || name in TagsFor(kids, order[|order| - 1]))
  }

  function SourceTags(doc: Sections): seq<Tree> {
    if doc.tags.Some? && doc.tags.value.kind == Sequence then doc.tags.value.kids else []
  }

  lemma FileTags(doc: Sections, file: string)
    ensures KidsOf(Document(FileSections(doc, file)), "tags") ==
            KeepTags(SourceTags(doc), TagsFor(doc.paths.kids, file))
  {
    FindInDocument(FileSections(doc, file), "tags");
  }

  lemma {:induction false} TagsInFiles(doc: Sections, order: seq<string>, name: string)
    ensures FindTag(MergedTags(FilesWritten(doc, order)), name) ==
            if name != "" && UsedBySome(doc.paths.kids, order, name) then FindTag(SourceTags(doc), name) else None
    decreases |order|
  {
    if order != [] {
      var init, last := order[..|order| - 1], order[|order| - 1];
      TagsInFiles(doc, init, name);
      FilesWrittenInit(doc, order);
      FileTags(doc, last);
      FindTagAdded(MergedTags(FilesWritten(doc, init)), KeepTags(SourceTags(doc), TagsFor(doc.paths.kids, last)), name);
      FindTagKept(SourceTags(doc), TagsFor(doc.paths.kids, last), name);
    }
  }

  /** Some operation of the source carries the tag. */
  predicate Used(kids: seq<Tree>, name: string) {
    |kids| >= 2 && (name in AllTags(Operations(kids[1].kids)) || Used(kids[2..], name))
  }

  lemma {:induction false} UsedByFile(kids: seq<Tree>, order: seq<string>, name: string)
    requires |kids| >= 2
    ensures var d := Destination(kids[1]);
            UsedBySome(kids, order, name) <==>
            || (d.Some? && d.value in order && name in AllTags(Operations(kids[1].kids)))
            || UsedBySome(kids[2..], order, name)
    decreases |order|
  {
    if order != [] {
      UsedByFile(kids, order[..|order| - 1], name);
      assert order == order[..|order| - 1] + [order[|order| - 1]];
    }
  }

  lemma {:induction false} UsedIsUsedBySome(kids: seq<Tree>, order: seq<string>, name: string)
    requires AllPlaced(kids, Destination, order)
    ensures UsedBySome(kids, order, name) <==> Used(kids, name)
  {
    if |kids| >= 2 {
      UsedIsUsedBySome(kids[2..], order, name);
      UsedByFile(kids, order, name);
    } else {
      UnusedByAll(kids, order, name);
    }
  }

  lemma {:induction false} UnusedByAll(kids: seq<Tree>, order: seq<string>, name: string)
    requires |kids| < 2
    ensures !UsedBySome(kids, order, name)
    decreases |order|
  {
    if order != [] {
      UnusedByAll(kids, order[..|order| - 1], name);
    }
  }

  /** Setting a scalar twice is setting it once. */
  lemma {:induction false} SetTwice(kids: seq<Tree>, key: string, a: string, b: string)
    requires |kids| % 2 == 0
    ensures SetScalar(SetScalar(kids, key, a), key, b) == SetScalar(kids, key, b)
  {
    if kids == [] {
      assert SetScalar(kids, key, a) == [ScalarTree(key), ScalarTree(a)];
    } else if kids[0].value == key {
      assert ([kids[0], ScalarTree(a)] + kids[2..])[2..] == kids[2..];
    } else {
      SetTwice(kids[2..], key, a, b);
      var inner := SetScalar(kids[2..], key, a);
      assert (kids[..2] + inner)[..2] == kids[..2] && (kids[..2] + inner)[2..] == inner;
    }
  }

  lemma {:induction false} HeaderOfFirst(doc: Sections, order: seq<string>)
    requires order != []
    ensures MergedHeader(FilesWritten(doc, order)) ==
            Header(Some(doc.openapi), Some(SetTitle(doc.info, TitleOf(order[0]))), doc.servers)
    decreases |order|
  {
    FilesWrittenInit(doc, order);
    if |order| == 1 {
      var s := FileSections(doc, order[0]);
      FindInDocument(s, "openapi");
      FindInDocument(s, "info");
      FindInDocument(s, "servers");
    } else {
      HeaderOfFirst(doc, order[..|order| - 1]);
    }
  }

  // ---------------------------------------------------------------------------------------
  // The round trip
  // ---------------------------------------------------------------------------------------

  /** What the OpenAPI rules ask of the document the split mode starts from, and complete entries below info. */
  predicate GoodSource(doc: Sections) {
    && GoodComponents(doc)
    && doc.paths.kind == Mapping
    && |doc.info.kids| % 2 == 0
  }

  /** The merged document, section by section. */
  lemma MergedSections(doc: Sections)
    requires |doc.info.kids| % 2 == 0
    ensures var docs := FilesWritten(doc, MERGE_ORDER);
            var tags := MergedTags(docs);
            ReadSections(MergedDocument(docs)) == Some(Sections(
              doc.openapi, SetTitle(doc.info, "Qeet ID API"), doc.servers,
              if tags == [] then None else Some(Tree(Sequence, "!!seq", "", tags)),
              NewMap(MergedPaths(docs)), NewMap(MergedComponents(docs, SECTION_ORDER))))
  {
    var docs := FilesWritten(doc, MERGE_ORDER);
    var tags := MergedTags(docs);
    HeaderOfFirst(doc, MERGE_ORDER);
    SetTwice(doc.info.kids, "title", TitleOf(MERGE_ORDER[0]), "Qeet ID API");
    ReadWrite(Sections(
      doc.openapi, SetTitle(doc.info, "Qeet ID API"), doc.servers,
      if tags == [] then None else Some(Tree(Sequence, "!!seq", "", tags)),
      NewMap(MergedPaths(docs)), NewMap(MergedComponents(docs, SECTION_ORDER))));
  }

  lemma {:induction false} EntriesStayDistinct(acc: seq<Tree>, kids: seq<Tree>)
    requires |acc| % 2 == 0 && DistinctKeys(acc)
    ensures |AddEntries(acc, kids)| % 2 == 0 && DistinctKeys(AddEntries(acc, kids))
    decreases kids
  {
    if |kids| >= 2 {
      var name := kids[0].value;
      DistinctAppend(acc, ScalarTree(name), kids[1]);
      EntriesStayDistinct(if FindKey(acc, name).Some? then acc else acc + [ScalarTree(name), kids[1]], kids[2..]);
    }
  }

  lemma {:induction false} SectionStaysDistinct(acc: seq<Tree>, kids: seq<Tree>, section: string)
    requires |acc| % 2 == 0 && DistinctKeys(acc)
    ensures |AddSection(acc, kids, section)| % 2 == 0 && DistinctKeys(AddSection(acc, kids, section))
    decreases kids
  {
    if |kids| >= 2 {
      EntriesStayDistinct(acc, kids[1].kids);
      SectionStaysDistinct(if kids[0].value == section then AddEntries(acc, kids[1].kids) else acc, kids[2..], section);
    }
  }

  lemma {:induction false} MergedSectionDistinct(docs: seq<Tree>, section: string)
    ensures |MergedSection(docs, section)| % 2 == 0 && DistinctKeys(MergedSection(docs, section))
  {
    if docs != [] {
      MergedSectionDistinct(docs[..|docs| - 1], section);
      SectionStaysDistinct(MergedSection(docs[..|docs| - 1], section), KidsOf(docs[|docs| - 1], "components"), section);
    }
  }

  lemma {:induction false} SectionsDistinct(docs: seq<Tree>, order: seq<string>)
    requires Once(order)
    ensures DistinctKeys(MergedComponents(docs, order))
  {
    if order != [] {
      SectionsDistinct(docs, order[1..]);
      FindOrdered(docs, order[1..], order[0]);
      var kids, rest := MergedSection(docs, order[0]), MergedComponents(docs, order[1..]);
      if kids != [] {
        assert ([ScalarTree(order[0]), NewMap(kids)] + rest)[2..] == rest;
      } else {
        assert [] + rest == rest;
      }
    }
  }

  lemma SectionOrderOnce()
    ensures Once(SECTION_ORDER)
  {
    assert |SECTION_ORDER[0]| == 15 && |SECTION_ORDER[1]| == 10 && |SECTION_ORDER[2]| == 9;
    assert |SECTION_ORDER[3]| == 13 && |SECTION_ORDER[4]| == 7 && |SECTION_ORDER[5]| == 7;
    assert SECTION_ORDER[4][0] == 'h' && SECTION_ORDER[5][0] == 's';
  }

  /** No section occurs twice, and no component twice in a section. */
  ghost predicate NoRepeats(components: Tree) {
    DistinctKeys(components.kids) &&
    forall section :: FindKey(components.kids, section).Some? ==>
      DistinctKeys(FindKey(components.kids, section).value.kids)
  }

  lemma MergedOnce(docs: seq<Tree>)
    ensures NoRepeats(NewMap(MergedComponents(docs, SECTION_ORDER)))
  {
    SectionOrderOnce();
    SectionsDistinct(docs, SECTION_ORDER);
    forall section | FindKey(MergedComponents(docs, SECTION_ORDER), section).Some?
      ensures DistinctKeys(FindKey(MergedComponents(docs, SECTION_ORDER), section).value.kids)
    {
      FindOrdered(docs, SECTION_ORDER, section);
      MergedSectionDistinct(docs, section);
    }
  }

  predicate TagsOnce(elems: seq<Tree>) {
    forall i, j :: 0 <= i < j < |elems| ==> ScalarChild(elems[i], "name") != ScalarChild(elems[j], "name")
  }

  lemma {:induction false} FoundTag(elems: seq<Tree>, i: nat)
    requires i < |elems|
    ensures FindTag(elems, ScalarChild(elems[i], "name")).Some?
  {
    if i > 0 {
      FoundTag(elems[1..], i - 1);
    }
  }

  lemma {:induction false} TagsStayOnce(acc: seq<Tree>, elems: seq<Tree>)
    requires TagsOnce(acc)
    ensures TagsOnce(AddTags(acc, elems))
    decreases elems
  {
    if elems != [] {
      var name := ScalarChild(elems[0], "name");
      var acc' := if name != "" && FindTag(acc, name).None? then acc + [elems[0]] else acc;
      forall i | 0 <= i < |acc| && FindTag(acc, name).None? ensures ScalarChild(acc[i], "name") != name {
        FoundTag(acc, i);
      }
      TagsStayOnce(acc', elems[1..]);
    }
  }

  lemma {:induction false} MergedTagsOnce(docs: seq<Tree>)
    ensures TagsOnce(MergedTags(docs))
  {
    if docs != [] {
      MergedTagsOnce(docs[..|docs| - 1]);
      TagsStayOnce(MergedTags(docs[..|docs| - 1]), KidsOf(docs[|docs| - 1], "tags"));
    }
  }

  /** A component of the merged document. */
  lemma MergedComponent(doc: Sections, r: Reference)
    requires GoodComponents(doc) && AllClassify(doc.paths.kids) && doc.paths.kind == Mapping
    ensures Lookup(Some(NewMap(MergedComponents(FilesWritten(doc, MERGE_ORDER), SECTION_ORDER))), r) ==
            if r.section in SECTION_ORDER && Needed(doc, r) then Lookup(Comps(doc), r) else None
  {
    var docs := FilesWritten(doc, MERGE_ORDER);
    FindOrdered(docs, SECTION_ORDER, r.section);
    FoundInFiles(doc, MERGE_ORDER, r);
    KeptIsNeeded(doc, r);
  }

  /**
   * Merge undoes split.  Merging the five files reports a duplicate path exactly if the source has one, and
   * otherwise gives a document with the paths of the source, each once and unchanged, file by file in the
   * order of the files' names; with exactly the security schemes and the components the paths reach, out of
   * the six sections it knows, each once and unchanged; with the tags that are used, each once; and with
   * the rest of the source but for the title.
   */
  lemma MergeUndoesSplit(doc: Sections)
    requires GoodSource(doc) && AllClassify(doc.paths.kids)
    ensures var docs := FilesWritten(doc, MERGE_ORDER);
            && (DistinctKeys(MergedPaths(docs)) <==> DistinctKeys(doc.paths.kids))
            && ReadSections(MergedDocument(docs)).Some?
            && var merged := ReadSections(MergedDocument(docs)).value;
            && merged.openapi == doc.openapi && merged.servers == doc.servers
            && merged.info == SetTitle(doc.info, "Qeet ID API")
            && multiset(Pairs(merged.paths.kids)) == multiset(Pairs(doc.paths.kids))
            && merged.paths.kids == SelectAll(doc.paths.kids, Destination, MERGE_ORDER)
            && NoRepeats(merged.components) && TagsOnce(SourceTags(merged))
            && (forall r :: Lookup(Comps(merged), r) ==
                  if r.section in SECTION_ORDER && Needed(doc, r) then Lookup(Comps(doc), r) else None)
            && (forall name :: FindTag(SourceTags(merged), name) ==
                  if name != "" && Used(doc.paths.kids, name) then FindTag(SourceTags(doc), name) else None)
  {
    var docs := FilesWritten(doc, MERGE_ORDER);
    MergeKeepsPaths(doc);
    MergedPathsAre(doc, MERGE_ORDER);
    MergedSections(doc);
    MergedOnce(docs);
    MergedTagsOnce(docs);
    forall r ensures Lookup(Some(NewMap(MergedComponents(docs, SECTION_ORDER))), r) ==
                     if r.section in SECTION_ORDER && Needed(doc, r) then Lookup(Comps(doc), r) else None {
      MergedComponent(doc, r);
    }
    ClassifiedIsPlaced(doc.paths.kids);
    forall name ensures FindTag(MergedTags(docs), name) ==
                        if name != "" && Used(doc.paths.kids, name) then FindTag(SourceTags(doc), name) else None {
      TagsInFiles(doc, MERGE_ORDER, name);
      UsedIsUsedBySome(doc.paths.kids, MERGE_ORDER, name);
    }
  }

  /** The two modes one after the other: a duplicate is reported exactly if a path of the source repeats. */
  method SplitThenMerge(root: Tree) returns (merged: Result<Tree, MergeError>)
    requires ReadSections(root).Some? && AllClassify(ReadSections(root).value.paths.kids)
    ensures merged.Ok? <==> DistinctKeys(ReadSections(root).value.paths.kids)
    ensures merged.Ok? ==> merged.value == MergedDocument(FilesWritten(ReadSections(root).value, MERGE_ORDER))
  {
    ghost var doc := ReadSections(root).value;
    var files := DoSplit(root);
    forall i | 0 <= i < |MERGE_ORDER| ensures MERGE_ORDER[i] in files.value {
      SameFiles(MERGE_ORDER[i]);
    }
    var docs := InOrderOf(files.value, MERGE_ORDER);
    WrittenIs(files.value, docs, doc, MERGE_ORDER);
    MergeKeepsPaths(doc);
    merged := DoMerge(docs);
  }

  lemma WrittenIs(files: map<string, Tree>, docs: seq<Tree>, doc: Sections, order: seq<string>)
    requires |docs| == |order| && forall i :: 0 <= i < |order| ==> order[i] in files && docs[i] == files[order[i]]
    requires forall f :: f in files ==> files[f] == Document(FileSections(doc, f))
    ensures docs == FilesWritten(doc, order)
  {
  }

  /** The files in the order of their names. */
  method InOrderOf(files: map<string, Tree>, order: seq<string>) returns (docs: seq<Tree>)
    requires forall i :: 0 <= i < |order| ==> order[i] in files
    ensures |docs| == |order| && forall i :: 0 <= i < |order| ==> docs[i] == files[order[i]]
  {
    docs := [];
    for i := 0 to |order|
      invariant |docs| == i && forall j :: 0 <= j < i ==> docs[j] == files[order[j]]
    {
      docs := docs + [files[order[i]]];
    }
  }
}
