/** The reading half of tools/openapi-split/main.go: lookup, $ref collection and its closure. */
module OpenApiRefs {
  import opened Wrappers
  import opened YamlTree

  // ---------------------------------------------------------------------------------------
  // Lookup
  // ---------------------------------------------------------------------------------------

  /** The value of the first entry with that key. */
  function FindKey(kids: seq<Tree>, key: string): Option<Tree> {
    if |kids| < 2 then None
    else if kids[0].value == key then Some(kids[1])
    else FindKey(kids[2..], key)
  }

  /** No key occurs twice. */
  predicate DistinctKeys(kids: seq<Tree>) {
    |kids| >= 2 ==> FindKey(kids[2..], kids[0].value).None? && DistinctKeys(kids[2..])
  }

  /** mapGet of the source; None stands for the nil node. */
  function MapGet(m: Option<Tree>, key: string): Option<Tree> {
    if m.None? || m.value.kind != Mapping then None else FindKey(m.value.kids, key)
  }

  /** Place i is the key of a complete entry. */
  predicate EntryAt(kids: seq<Tree>, i: nat, key: string) {
    i % 2 == 0 && i + 1 < |kids| && kids[i].value == key
  }

  /** The result is the value of the first such entry, or none. */
  ghost predicate FirstEntry(kids: seq<Tree>, key: string, r: Option<Tree>) {
    && (r.None? <==> forall i: nat :: !EntryAt(kids, i, key))
    && (r.Some? ==> exists i: nat ::
          EntryAt(kids, i, key) && r.value == kids[i + 1] && forall j: nat :: j < i ==> !EntryAt(kids, j, key))
  }

  lemma {:induction false} FindKeyIs(kids: seq<Tree>, key: string)
    ensures FirstEntry(kids, key, FindKey(kids, key))
  {
    if |kids| >= 2 {
      if kids[0].value == key {
        assert EntryAt(kids, 0, key);
      } else {
        FindKeyIs(kids[2..], key);
        LaterEntries(kids, key);
        if FindKey(kids[2..], key).Some? {
          var i: nat :| EntryAt(kids[2..], i, key) && FindKey(kids[2..], key).value == kids[2..][i + 1] &&
                        forall j: nat :: j < i ==> !EntryAt(kids[2..], j, key);
          assert EntryAt(kids, i + 2, key);
        }
      }
    }
  }

  lemma LaterEntries(kids: seq<Tree>, key: string)
    requires |kids| >= 2 && kids[0].value != key
    ensures forall i: nat :: EntryAt(kids, i, key) <==> i >= 2 && EntryAt(kids[2..], i - 2, key)
  {
    forall i: nat ensures EntryAt(kids, i, key) <==> i >= 2 && EntryAt(kids[2..], i - 2, key) {
      if 2 <= i < |kids| {
        assert kids[2..][i - 2] == kids[i];
      }
    }
  }

  method MapGetLoop(m: Option<Tree>, key: string) returns (r: Option<Tree>)
    ensures r == MapGet(m, key)
    ensures m.None? || m.value.kind != Mapping ==> r.None?
    ensures m.Some? && m.value.kind == Mapping ==> FirstEntry(m.value.kids, key, r)
  {
    if m.Some? {
      FindKeyIs(m.value.kids, key);
    }
    if m.None? || m.value.kind != Mapping {
      return None;
    }
    var i := 0;
    while i + 1 < |m.value.kids|
      invariant 0 <= i <= |m.value.kids|
      invariant FindKey(m.value.kids, key) == FindKey(m.value.kids[i..], key)
    {
      if m.value.kids[i].value == key {
        return Some(m.value.kids[i + 1]);
      }
      assert m.value.kids[i..][2..] == m.value.kids[i + 2..];
      i := i + 2;
    }
    return None;
  }

  // ---------------------------------------------------------------------------------------
  // References
  // ---------------------------------------------------------------------------------------

  /** A reference #/components/<section>/<name>. */
  datatype Reference = Reference(section: string, name: string)

  const PREFIX := "#/components/"

  function IndexOf(s: string, c: char): (i: nat)
    ensures i <= |s| && (i < |s| ==> s[i] == c) && c !in s[..i]
  {
    if s == "" || s[0] == c then 0
    else
      var i := 1 + IndexOf(s[1..], c);
      assert s[..i] == [s[0]] + s[1..][..i - 1];
      i
  }

  /** What a $ref scalar names: the text after the prefix, cut at its first slash. */
  function Target(value: string): Option<Reference> {
    if !(PREFIX <= value) then None
    else
      var rest := value[|PREFIX|..];
      var i := IndexOf(rest, '/');
      if i == |rest| then None else Some(Reference(rest[..i], rest[i + 1..]))
  }

  function OwnRef(key: Tree, val: Tree): set<Reference> {
    if key.value == "$ref" && val.kind == Scalar && Target(val.value).Some?
    then {Target(val.value).value} else {}
  }

  /** Every reference in a node tree; the keys of mappings are not walked. */
  function RefsOf(t: Tree): set<Reference>
    decreases t, 1
  {
    if t.kind == Mapping then RefsOfEntries(t.kids) else RefsOfAll(t.kids)
  }

  function RefsOfEntries(kids: seq<Tree>): set<Reference>
    decreases kids, 0
  {
    if |kids| < 2 then {}
    else OwnRef(kids[0], kids[1]) + RefsOf(kids[1]) + RefsOfEntries(kids[2..])
  }

  function RefsOfAll(kids: seq<Tree>): set<Reference>
    decreases kids, 0
  {
    if kids == [] then {} else RefsOf(kids[0]) + RefsOfAll(kids[1..])
  }

  lemma EntriesFrom(kids: seq<Tree>, i: nat)
    requires i + 1 < |kids|
    ensures RefsOfEntries(kids[i..]) ==
            OwnRef(kids[i], kids[i + 1]) + (RefsOf(kids[i + 1]) + RefsOfEntries(kids[i + 2..]))
  {
    assert kids[i..][0] == kids[i] && kids[i..][1] == kids[i + 1] && kids[i..][2..] == kids[i + 2..];
  }

  // What is a reference to what, said without the functions above.

  /** The places collectRefs goes on to: the values of a mapping, all children of another node. */
  predicate Child(n: Tree, i: nat) {
    i < |n.kids| && (n.kind == Mapping ==> i % 2 == 1)
  }

  ghost predicate Below(n: Tree, m: Tree)
    decreases n
  {
    n == m || exists i: nat :: Child(n, i) && Below(n.kids[i], m)
  }

  /** The mapping's complete entry j is a $ref to the component. */
  predicate NamesAt(m: Tree, j: nat, r: Reference) {
    && j % 2 == 0 && j + 1 < |m.kids| && m.kids[j].value == "$ref" && m.kids[j + 1].kind == Scalar
    && m.kids[j + 1].value == "#/components/" + r.section + "/" + r.name && '/' !in r.section
  }

  ghost predicate Names(m: Tree, r: Reference) {
    m.kind == Mapping && exists j: nat :: NamesAt(m, j, r)
  }

  /** Some mapping below the node has such an entry. */
  ghost predicate Refers(n: Tree, r: Reference) {
    exists m :: Below(n, m) && Names(m, r)
  }

  lemma {:induction false} FirstSlash(a: string, b: string)
    requires '/' !in a
    ensures IndexOf(a + "/" + b, '/') == |a|
  {
    if a != "" {
      assert a[0] in a && '/' !in a[1..];
      FirstSlash(a[1..], b);
      assert (a + "/" + b)[1..] == a[1..] + "/" + b;
    }
  }

  lemma CutAt(s: string, a: string, b: string)
    requires '/' !in a
    ensures s == a + "/" + b <==>
            IndexOf(s, '/') < |s| && s[..IndexOf(s, '/')] == a && s[IndexOf(s, '/') + 1..] == b
  {
    FirstSlash(a, b);
    assert (a + "/" + b)[..|a|] == a && (a + "/" + b)[|a| + 1..] == b;
    if IndexOf(s, '/') < |s| {
      Cut(s, IndexOf(s, '/'));
    }
  }

  lemma Cut(s: string, i: nat)
    requires i < |s| && s[i] == '/'
    ensures s == s[..i] + "/" + s[i + 1..]
  {
  }

  lemma TargetIs(value: string, r: Reference)
    ensures Target(value) == Some(r) <==>
            value == "#/components/" + r.section + "/" + r.name && '/' !in r.section
  {
    var tail := r.section + "/" + r.name;
    assert "#/components/" + r.section + "/" + r.name == PREFIX + tail;
    if PREFIX <= value {
      assert value == PREFIX + value[|PREFIX|..];
      assert value == PREFIX + tail <==> value[|PREFIX|..] == tail;
      if '/' !in r.section {
        CutAt(value[|PREFIX|..], r.section, r.name);
      }
    } else {
      assert PREFIX <= PREFIX + tail;
    }
  }

  lemma OwnRefIs(m: Tree, j: nat, r: Reference)
    requires j % 2 == 0 && j + 1 < |m.kids|
    ensures r in OwnRef(m.kids[j], m.kids[j + 1]) <==> NamesAt(m, j, r)
  {
    TargetIs(m.kids[j + 1].value, r);
  }

  lemma RefersStep(n: Tree, r: Reference)
    ensures Refers(n, r) <==> Names(n, r) || exists i: nat :: Child(n, i) && Refers(n.kids[i], r)
  {
    if m :| Below(n, m) && Names(m, r) {
      if n != m {
        var i: nat :| Child(n, i) && Below(n.kids[i], m);
        assert Refers(n.kids[i], r);
      }
    }
    if i: nat :| Child(n, i) && Refers(n.kids[i], r) {
      var m :| Below(n.kids[i], m) && Names(m, r);
      assert Below(n, m);
    }
    if Names(n, r) {
      assert Below(n, n);
    }
  }

  /** The mapping's entries from j on name the component, or hold what does. */
  ghost predicate NamedFrom(n: Tree, j: nat, r: Reference) {
    exists k: nat :: j <= k && NamesAt(n, k, r)
  }

  ghost predicate HeldFrom(n: Tree, j: nat, r: Reference) {
    exists i: nat :: j <= i && Child(n, i) && Refers(n.kids[i], r)
  }

  lemma NamedStep(n: Tree, j: nat, r: Reference)
    requires j % 2 == 0
    ensures NamedFrom(n, j, r) <==> NamesAt(n, j, r) || NamedFrom(n, j + 2, r)
  {
    if k: nat :| j <= k && NamesAt(n, k, r) {
      assert k == j || j + 2 <= k;
    }
  }

  lemma HeldStep(n: Tree, j: nat, r: Reference)
    requires n.kind == Mapping && j % 2 == 0 && j + 1 < |n.kids|
    ensures HeldFrom(n, j, r) <==> Refers(n.kids[j + 1], r) || HeldFrom(n, j + 2, r)
  {
    assert Child(n, j + 1);
    if i: nat :| j <= i && Child(n, i) && Refers(n.kids[i], r) {
      assert i == j + 1 || j + 2 <= i;
    }
  }

  lemma {:induction false} EntriesRefer(n: Tree, j: nat, r: Reference)
    requires n.kind == Mapping && j % 2 == 0 && j <= |n.kids|
    ensures r in RefsOfEntries(n.kids[j..]) <==> NamedFrom(n, j, r) || HeldFrom(n, j, r)
    decreases n, |n.kids| - j
  {
    if j + 1 < |n.kids| {
      EntriesFrom(n.kids, j);
      OwnRefIs(n, j, r);
      RefsOfIs(n.kids[j + 1], r);
      EntriesRefer(n, j + 2, r);
      NamedStep(n, j, r);
      HeldStep(n, j, r);
    }
  }

  lemma {:induction false} ElementsRefer(n: Tree, j: nat, r: Reference)
    requires n.kind != Mapping && j <= |n.kids|
    ensures r in RefsOfAll(n.kids[j..]) <==> exists i: nat :: j <= i && Child(n, i) && Refers(n.kids[i], r)
    decreases n, |n.kids| - j
  {
    if j < |n.kids| {
      assert n.kids[j..][0] == n.kids[j] && n.kids[j..][1..] == n.kids[j + 1..];
      RefsOfIs(n.kids[j], r);
      ElementsRefer(n, j + 1, r);
      assert Child(n, j);
    }
  }

  /** The references of a node are those its text has: #/components/<section>/<name> under a key $ref. */
  lemma {:induction false} RefsOfIs(n: Tree, r: Reference)
    ensures r in RefsOf(n) <==> Refers(n, r)
    decreases n
  {
    RefersStep(n, r);
    assert n.kids[0..] == n.kids;
    if n.kind == Mapping {
      EntriesRefer(n, 0, r);
    } else {
      ElementsRefer(n, 0, r);
    }
  }

  /** The reference an entry is, if it is one. */
  method AddOwnRef(k: Tree, v: Tree, out: set<Reference>) returns (out': set<Reference>)
    ensures out' == out + OwnRef(k, v)
  {
    out' := out;
    if k.value == "$ref" && v.kind == Scalar && PREFIX <= v.value {
      var rest := v.value[|PREFIX|..];
      var slash := IndexOf(rest, '/');
      if slash < |rest| {
        out' := out' + {Reference(rest[..slash], rest[slash + 1..])};
      }
    }
  }

  /** collectRefs: adds the references of n to out. */
  method CollectRefs(n: Tree, out: set<Reference>) returns (out': set<Reference>)
    ensures forall r :: r in out' <==> r in out || Refers(n, r)
    ensures out' == out + RefsOf(n)
  {
    out' := Collect(n, out);
    forall r ensures r in RefsOf(n) <==> Refers(n, r) {
      RefsOfIs(n, r);
    }
  }

  /** Its walk. */
  method Collect(n: Tree, out: set<Reference>) returns (out': set<Reference>)
    ensures out' == out + RefsOf(n)
    decreases n
  {
    out' := out;
    if n.kind == Mapping {
      var i := 0;
      while i + 1 < |n.kids|
        invariant 0 <= i <= |n.kids|
        invariant out' + RefsOfEntries(n.kids[i..]) == out + RefsOf(n)
      {
        EntriesFrom(n.kids, i);
        out' := AddOwnRef(n.kids[i], n.kids[i + 1], out');
        out' := Collect(n.kids[i + 1], out');
        i := i + 2;
      }
      return;
    }
    for i := 0 to |n.kids|
      invariant out' + RefsOfAll(n.kids[i..]) == out + RefsOf(n)
    {
      assert n.kids[i..][1..] == n.kids[i + 1..];
      out' := Collect(n.kids[i], out');
    }
  }

  // ---------------------------------------------------------------------------------------
  // The closure
  // ---------------------------------------------------------------------------------------

  function Lookup(components: Option<Tree>, r: Reference): Option<Tree> {
    MapGet(MapGet(components, r.section), r.name)
  }

  /** The references a component holds itself. */
  function Uses(components: Option<Tree>, r: Reference): set<Reference> {
    match Lookup(components, r)
    case None => {}
    case Some(c) => RefsOf(c)
  }

  /** p is a walk along references, begun in start. */
  ghost predicate IsWalk(components: Option<Tree>, start: set<Reference>, p: seq<Reference>) {
    && |p| > 0 && p[0] in start
    && forall i :: 0 < i < |p| ==> p[i] in Uses(components, p[i - 1])
  }

  ghost predicate Reachable(components: Option<Tree>, start: set<Reference>, r: Reference) {
    exists p :: IsWalk(components, start, p) && p[|p| - 1] == r
  }

  function Universe(components: Option<Tree>, start: set<Reference>): set<Reference> {
    start + if components.Some? then RefsOf(components.value) else {}
  }

  /** The components reachable from start. */
  ghost function Closure(components: Option<Tree>, start: set<Reference>): set<Reference> {
    set r | r in Universe(components, start) && Reachable(components, start, r)
  }

  lemma {:induction false} FoundRefs(kids: seq<Tree>, key: string)
    requires FindKey(kids, key).Some?
    ensures RefsOf(FindKey(kids, key).value) <= RefsOfEntries(kids)
  {
    if kids[0].value != key {
      FoundRefs(kids[2..], key);
    }
  }

  lemma UsesWithin(components: Option<Tree>, r: Reference)
    ensures components.None? ==> Uses(components, r) == {}
    ensures components.Some? ==> Uses(components, r) <= RefsOf(components.value)
  {
    if Lookup(components, r).Some? {
      var sec := MapGet(components, r.section).value;
      FoundRefs(sec.kids, r.name);
      FoundRefs(components.value.kids, r.section);
    }
  }

  lemma ReachableStart(components: Option<Tree>, start: set<Reference>, r: Reference)
    requires r in start
    ensures Reachable(components, start, r)
  {
    assert IsWalk(components, start, [r]);
  }

  lemma ReachableStep(components: Option<Tree>, start: set<Reference>, r: Reference, r': Reference)
    requires Reachable(components, start, r) && r' in Uses(components, r)
    ensures Reachable(components, start, r')
  {
    var p :| IsWalk(components, start, p) && p[|p| - 1] == r;
    assert IsWalk(components, start, p + [r']);
  }

  /** A set that holds start and is closed under references holds all that is reachable. */
  lemma {:induction false} ClosedHoldsWalk(
      components: Option<Tree>, start: set<Reference>, S: set<Reference>, p: seq<Reference>)
    requires start <= S && forall r :: r in S ==> Uses(components, r) <= S
    requires IsWalk(components, start, p)
    ensures p[|p| - 1] in S
  {
    if |p| > 1 {
      ClosedHoldsWalk(components, start, S, p[..|p| - 1]);
    }
  }

  predicate Closed(components: Option<Tree>, S: set<Reference>) {
    forall r :: r in S ==> Uses(components, r) <= S
  }

  /** Closure holds start, is closed under references, and holds all that is reachable. */
  lemma ClosureIsClosed(components: Option<Tree>, start: set<Reference>)
    ensures start <= Closure(components, start) && Closed(components, Closure(components, start))
    ensures forall r :: r in Closure(components, start) <==> Reachable(components, start, r)
  {
    var C := Closure(components, start);
    forall r | r in start ensures r in C {
      ReachableStart(components, start, r);
    }
    forall r | r in C ensures Uses(components, r) <= C {
      forall r' | r' in Uses(components, r) ensures r' in C {
        ReachableStep(components, start, r, r');
        UsesWithin(components, r);
      }
    }
    forall r | Reachable(components, start, r) ensures r in C {
      ClosureIsLeast(components, start, C);
    }
  }

  /** No smaller set holds start and is closed under references. */
  lemma ClosureIsLeast(components: Option<Tree>, start: set<Reference>, S: set<Reference>)
    requires start <= S && Closed(components, S)
    ensures Closure(components, start) <= S
    ensures forall r :: Reachable(components, start, r) ==> r in S
  {
    forall r | Reachable(components, start, r) ensures r in S {
      var p :| IsWalk(components, start, p) && p[|p| - 1] == r;
      ClosedHoldsWalk(components, start, S, p);
    }
  }

  /** resolveClosure: the fixpoint loop finds exactly what is reachable, in whatever order it visits. */
  method ResolveClosure(components: Option<Tree>, start: set<Reference>) returns (closure: set<Reference>)
    ensures closure == Closure(components, start)
    ensures forall r :: r in closure <==> Reachable(components, start, r)
  {
    ClosureIsClosed(components, start);
    closure := GrowToFixpoint(components, start, Closure(components, start));
    ClosureIsLeast(components, start, closure);
  }

  /** The loop of resolveClosure, bounded by any closed set C that holds start. */
  method GrowToFixpoint(components: Option<Tree>, start: set<Reference>, ghost C: set<Reference>)
    returns (closure: set<Reference>)
    requires start <= C && Closed(components, C)
    ensures start <= closure <= C && Closed(components, closure)
  {
    closure := start;
    var grew := true;
    while grew
      invariant start <= closure <= C
      invariant !grew ==> Closed(components, closure)
      decreases |C - closure|, grew
    {
      var next := NextRound(components, closure, C);
      grew := !(next <= closure);
      if grew {
        ShrinkingRest(C, closure, closure + next);
      } else {
        assert closure + next == closure;
      }
      closure := closure + next;
    }
  }

  /** The references of all the components found so far, collected aside. */
  method NextRound(components: Option<Tree>, closure: set<Reference>, ghost C: set<Reference>)
    returns (next: set<Reference>)
    requires closure <= C && Closed(components, C)
    ensures next <= C && forall r :: r in closure ==> Uses(components, r) <= next
  {
    next := {};
    var todo := closure;
    while todo != {}
      invariant todo <= closure && next <= C
      invariant forall r :: r in closure - todo ==> Uses(components, r) <= next
    {
      var r :| r in todo;
      todo := todo - {r};
      var sec := MapGetLoop(components, r.section);
      var comp := MapGetLoop(sec, r.name);
      if comp.Some? {
        assert Uses(components, r) == RefsOf(comp.value);
        next := CollectRefs(comp.value, next);
      }
    }
  }

  lemma ShrinkingRest(C: set<Reference>, S: set<Reference>, S': set<Reference>)
    requires S < S' <= C
    ensures |C - S'| < |C - S|
  {
    assert C - S == (C - S') + (S' - S);
    assert S' - S != {};
  }

  /** What is reachable from two sets is what is reachable from one or the other. */
  lemma ClosureUnion(components: Option<Tree>, a: set<Reference>, b: set<Reference>)
    ensures Closure(components, a + b) == Closure(components, a) + Closure(components, b)
  {
    ClosureMonotone(components, a, a + b);
    ClosureMonotone(components, b, a + b);
    ClosureUnionUpper(components, a, b);
  }

  lemma ClosureUnionUpper(components: Option<Tree>, a: set<Reference>, b: set<Reference>)
    ensures Closure(components, a + b) <= Closure(components, a) + Closure(components, b)
  {
    ClosureHoldsStart(components, a);
    ClosureHoldsStart(components, b);
    ClosedUnion(components, Closure(components, a), Closure(components, b));
    ClosureWithin(components, a + b, Closure(components, a) + Closure(components, b));
  }

  lemma ClosureHoldsStart(components: Option<Tree>, start: set<Reference>)
    ensures start <= Closure(components, start) && Closed(components, Closure(components, start))
  {
    ClosureIsClosed(components, start);
  }

  lemma ClosureWithin(components: Option<Tree>, start: set<Reference>, S: set<Reference>)
    requires start <= S && Closed(components, S)
    ensures Closure(components, start) <= S
  {
    ClosureIsLeast(components, start, S);
  }

  lemma ClosedUnion(components: Option<Tree>, A: set<Reference>, B: set<Reference>)
    requires Closed(components, A) && Closed(components, B)
    ensures Closed(components, A + B)
  {
  }

  lemma ClosureMonotone(components: Option<Tree>, a: set<Reference>, b: set<Reference>)
    requires a <= b
    ensures Closure(components, a) <= Closure(components, b)
  {
    ClosureIsClosed(components, b);
    ClosureIsLeast(components, a, Closure(components, b));
  }

  /** Nothing is reachable from nothing. */
  lemma ClosureEmpty(components: Option<Tree>)
    ensures Closure(components, {}) == {}
  {
    ClosureIsLeast(components, {}, {});
  }
}
