/** The value a YAML document denotes once every alias has been read as its target. */
module YamlTree {

  /** The node kinds of gopkg.in/yaml.v3. */
  datatype Kind = DocumentNode | Sequence | Mapping | Scalar | Alias

  /** A node without identity, anchor or alias pointer.  A mapping's kids alternate key, value. */
  datatype Tree = Tree(kind: Kind, tag: string, value: string, kids: seq<Tree>)

  /** The node built by scalar(val) in the source. */
  function ScalarTree(val: string): Tree {
    Tree(Scalar, "!!str", val, [])
  }

  /** No node of the document has the alias kind. */
  predicate AliasFree(t: Tree) {
    t.kind != Alias && forall i :: 0 <= i < |t.kids| ==> AliasFree(t.kids[i])
  }

  /** countAliases of the source, on a value. */
  function CountAliases(t: Tree): nat {
    (if t.kind == Alias then 1 else 0) + CountAliasesIn(t.kids)
  }

  function CountAliasesIn(kids: seq<Tree>): nat {
    if kids == [] then 0 else CountAliases(kids[0]) + CountAliasesIn(kids[1..])
  }

  /** The counter the verify mode reports is zero exactly on alias-free documents. */
  lemma {:induction false} CountAliasesZero(t: Tree)
    ensures CountAliases(t) == 0 <==> AliasFree(t)
    decreases t, 1
  {
    CountAliasesInZero(t.kids);
  }

  lemma {:induction false} CountAliasesInZero(kids: seq<Tree>)
    ensures CountAliasesIn(kids) == 0 <==> forall i :: 0 <= i < |kids| ==> AliasFree(kids[i])
    decreases kids, 0
  {
    if kids != [] {
      CountAliasesZero(kids[0]);
      CountAliasesInZero(kids[1..]);
      assert kids == [kids[0]] + kids[1..];
    }
  }

  /** setMapScalar of the source, on the content of a mapping. */
  function SetScalar(kids: seq<Tree>, key: string, val: string): seq<Tree> {
    if |kids| < 2 then kids + [ScalarTree(key), ScalarTree(val)]
    else if kids[0].value == key then [kids[0], ScalarTree(val)] + kids[2..]
    else kids[..2] + SetScalar(kids[2..], key, val)
  }

  // ---------------------------------------------------------------------------------------
  // What a node graph can hold that no document denotes
  // ---------------------------------------------------------------------------------------

  /** The graph below a node pointer: nil, a node of the alias kind, or a node with its children. */
  datatype Shape = Nil | AliasLeaf | Whole(kind: Kind, tag: string, value: string, kids: seq<Shape>)

  function Kids(o: Shape): seq<Shape> {
    if o.Whole? then o.kids else []
  }

  /** No nil and no alias anywhere. */
  predicate Clean(o: Shape) {
    o.Whole? && forall i :: 0 <= i < |o.kids| ==> Clean(o.kids[i])
  }

  function ShapeOf(t: Tree): Shape {
    Whole(t.kind, t.tag, t.value, seq(|t.kids|, i requires 0 <= i < |t.kids| => ShapeOf(t.kids[i])))
  }

  function ShapesAll(ts: seq<Tree>): (r: seq<Shape>)
    ensures |r| == |ts|
  {
    seq(|ts|, i requires 0 <= i < |ts| => ShapeOf(ts[i]))
  }

  lemma ShapesSnoc(ts: seq<Tree>, t: Tree)
    ensures ShapesAll(ts + [t]) == ShapesAll(ts) + [ShapeOf(t)]
  {
  }

  lemma {:induction false} ShapeIsClean(t: Tree)
    ensures Clean(ShapeOf(t))
  {
    forall i | 0 <= i < |t.kids| ensures Clean(ShapeOf(t).kids[i]) {
      ShapeIsClean(t.kids[i]);
    }
  }

  datatype Cleared = Panics | Leaves(shape: Shape)

  datatype ClearedKids = PanicsIn | LeavesAll(shapes: seq<Shape>)

  /**
   * What expandAliases leaves of a child that is a clone, in which no alias has a target any more: an
   * alias becomes nil, and a child that is nil already is dereferenced.
   */
  function ClearedChild(o: Shape): Cleared
    decreases o, 2
  {
    match o
    case Nil => Panics
    case AliasLeaf => Leaves(Nil)
    case Whole(_, _, _, _) => ClearedRoot(o)
  }

  /** The same for the clone itself. */
  function ClearedRoot(o: Shape): Cleared
    decreases o, 1
  {
    if !o.Whole? then Leaves(o)
    else
      match ClearedFirst(o, |o.kids|)
      case PanicsIn => Panics
      case LeavesAll(shapes) => Leaves(Whole(o.kind, o.tag, o.value, shapes))
  }

  /** The first n children of the clone. */
  function ClearedFirst(o: Shape, n: nat): (r: ClearedKids)
    requires o.Whole? && n <= |o.kids|
    ensures r.LeavesAll? ==> |r.shapes| == n
    decreases o, 0, n
  {
    if n == 0 then LeavesAll([])
    else
      match ClearedFirst(o, n - 1)
      case PanicsIn => PanicsIn
      case LeavesAll(shapes) =>
        match ClearedChild(o.kids[n - 1])
        case Panics => PanicsIn
        case Leaves(shape) => LeavesAll(shapes + [shape])
  }

  lemma {:induction false} ClearedClean(o: Shape)
    requires Clean(o)
    ensures ClearedRoot(o) == Leaves(o)
    decreases o, 1
  {
    ClearedFirstClean(o, |o.kids|);
    assert o.kids[..|o.kids|] == o.kids;
  }

  lemma {:induction false} ClearedFirstClean(o: Shape, n: nat)
    requires Clean(o) && n <= |o.kids|
    ensures ClearedFirst(o, n) == LeavesAll(o.kids[..n])
    decreases o, 0, n
  {
    if n > 0 {
      ClearedFirstClean(o, n - 1);
      ClearedClean(o.kids[n - 1]);
    }
  }

  /** What becomes of one child stays. */
  lemma {:induction false} ClearedKeeps(o: Shape, i: nat, n: nat)
    requires o.Whole? && i < n <= |o.kids|
    ensures ClearedFirst(o, n).LeavesAll? ==> ClearedChild(o.kids[i]) == Leaves(ClearedFirst(o, n).shapes[i])
    decreases n
  {
    if i < n - 1 {
      ClearedKeeps(o, i, n - 1);
    }
  }

  /** A clone that is not clean is not made clean. */
  lemma {:induction false} ClearedDirty(o: Shape)
    requires o.Whole? && !Clean(o)
    ensures ClearedRoot(o).Panics? || !Clean(ClearedRoot(o).shape)
  {
    var i :| 0 <= i < |o.kids| && !Clean(o.kids[i]);
    if o.kids[i].Whole? {
      ClearedDirty(o.kids[i]);
    }
    ClearedKeeps(o, i, |o.kids|);
  }
}
