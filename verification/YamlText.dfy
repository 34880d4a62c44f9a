/** The text of a parsed YAML document, what it means, and what expanding its aliases makes of it. */
module YamlText {
  import opened YamlTree

  /** A yaml.v3 node, as far as the tool looks at it. */
  class Node {
    var kind: Kind
    var tag: string
    var value: string
    var anchor: string
    var alias: Node?
    var content: seq<Node?>

    constructor (kind: Kind, tag: string, value: string, anchor: string, alias: Node?, content: seq<Node?>)
      ensures this.kind == kind && this.tag == tag && this.value == value
      ensures this.anchor == anchor && this.alias == alias && this.content == content
    {
      this.kind, this.tag, this.value := kind, tag, value;
      this.anchor, this.alias, this.content := anchor, alias, content;
    }
  }

  /** A content tree, with every alias naming the node it stands for; a clone's aliases name none. */
  datatype Term =
    | Inner(id: Node, kind: Kind, tag: string, value: string, kids: seq<Term>)
    | Ref(id: Node, target: Node?)
    | Hole

  ghost function Ids(t: Term): set<Node> {
    match t
    case Ref(id, _) => {id}
    case Inner(id, _, _, _, kids) => {id} + IdsIn(kids)
    case Hole => {}
  }

  ghost function IdsIn(kids: seq<Term>): set<Node> {
    if kids == [] then {} else IdsIn(kids[..|kids| - 1]) + Ids(kids[|kids| - 1])
  }

  /** The nodes an alias may name: all but the alias nodes. */
  ghost function Anchors(t: Term): set<Node> {
    match t
    case Inner(id, _, _, _, kids) => AnchorsIn(kids) + {id}
    case _ => {}
  }

  ghost function AnchorsIn(kids: seq<Term>): set<Node> {
    if kids == [] then {} else AnchorsIn(kids[..|kids| - 1]) + Anchors(kids[|kids| - 1])
  }

  /** The content edges form a tree. */
  ghost predicate Distinct(t: Term) {
    t.Inner? ==>
      && t.id !in IdsIn(t.kids)
      && (forall i :: 0 <= i < |t.kids| ==> Distinct(t.kids[i]))
      && (forall i, j :: 0 <= i < j < |t.kids| ==> Ids(t.kids[i]) !! Ids(t.kids[j]))
  }

  /**
   * What the parser guarantees: every alias names a node that is completed before it in document order,
   * or one that encloses it.
   */
  ghost predicate Scoped(t: Term, done: set<Node>, open: set<Node>) {
    match t
    case Hole => false
    case Ref(_, target) => target != null && (target in done || target in open)
    case Inner(id, _, _, _, kids) =>
      forall i :: 0 <= i < |kids| ==> Scoped(kids[i], done + AnchorsIn(kids[..i]), open + {id})
  }

  /**
   * Every alias names a node that is completed before it.  A node is completed after its content, so no
   * alias lies inside its own anchor.
   */
  ghost predicate Ordered(t: Term, done: set<Node>) {
    match t
    case Hole => false
    case Ref(_, target) => target != null && target in done
    case Inner(_, _, _, _, kids) =>
      forall i :: 0 <= i < |kids| ==> Ordered(kids[i], done + AnchorsIn(kids[..i]))
  }

  // ---------------------------------------------------------------------------------------
  // What the text means: read in document order, an alias stands for its completed target.
  // ---------------------------------------------------------------------------------------

  ghost function Meaning(t: Term, env: map<Node, Tree>): Tree
    decreases t, 1
  {
    match t
    case Inner(_, kind, tag, value, kids) => Tree(kind, tag, value, MeaningIn(kids, env))
    case Ref(_, target) => if target != null && target in env then env[target] else Tree(Alias, "", "", [])
    case Hole => Tree(Alias, "", "", [])
  }

  ghost function MeaningIn(kids: seq<Term>, env: map<Node, Tree>): (ts: seq<Tree>)
    ensures |ts| == |kids|
    decreases kids, 2
  {
    if kids == [] then []
    else
      var init := kids[..|kids| - 1];
      MeaningIn(init, env) + [Meaning(kids[|kids| - 1], AfterIn(init, env))]
  }

  /** The nodes known after t has been read, with what they mean. */
  ghost function After(t: Term, env: map<Node, Tree>): map<Node, Tree>
    decreases t, 1
  {
    if !t.Inner? then env
    else AfterIn(t.kids, env)[t.id := Tree(t.kind, t.tag, t.value, MeaningIn(t.kids, env))]
  }

  ghost function AfterIn(kids: seq<Term>, env: map<Node, Tree>): map<Node, Tree>
    decreases kids, 1
  {
    if kids == [] then env
    else After(kids[|kids| - 1], AfterIn(kids[..|kids| - 1], env))
  }

  // ---------------------------------------------------------------------------------------
  // What expandAliases makes of the text
  // ---------------------------------------------------------------------------------------

  /** The text as the graph holds it before anything is expanded. */
  ghost function Raw(t: Term): Shape {
    match t
    case Hole => Nil
    case Ref(_, _) => AliasLeaf
    case Inner(_, kind, tag, value, kids) =>
        Whole(kind, tag, value, seq(|kids|, i requires 0 <= i < |kids| => Raw(kids[i])))
  }

  ghost function RawAll(kids: seq<Term>): (r: seq<Shape>)
    ensures |r| == |kids|
  {
    seq(|kids|, i requires 0 <= i < |kids| => Raw(kids[i]))
  }

  /** The enclosing nodes of a place, innermost first: children already expanded, and those still to come. */
  datatype Context =
    | Top
    | In(id: Node, kind: Kind, tag: string, value: string, before: seq<Shape>, rest: seq<Term>, up: Context)

  ghost function Open(ctx: Context): set<Node> {
    if ctx.Top? then {} else {ctx.id} + Open(ctx.up)
  }

  /** The graph below an enclosing node as it is now, with the given shape at the place itself. */
  ghost function Seen(ctx: Context, target: Node, here: Shape): Shape {
    if ctx.Top? then here
    else
      var whole := Whole(ctx.kind, ctx.tag, ctx.value, ctx.before + [here] + RawAll(ctx.rest));
      if ctx.id == target then whole else Seen(ctx.up, target, whole)
  }

  datatype Outcome = Panic | Out(shape: Shape, env: map<Node, Shape>)

  datatype Outcomes = PanicIn | Outs(shapes: seq<Shape>, env: map<Node, Shape>)

  /** The node itself: its children one after the other. */
  ghost function Expand(t: Term, env: map<Node, Shape>, ctx: Context): Outcome
    decreases t, 2
  {
    match t
    case Hole => Out(Nil, env)
    case Ref(_, _) => Out(AliasLeaf, env)
    case Inner(id, kind, tag, value, kids) =>
      match ExpandFirst(t, |kids|, env, ctx)
      case PanicIn => Panic
      case Outs(shapes, env') => Out(Whole(kind, tag, value, shapes), env'[id := Whole(kind, tag, value, shapes)])
  }

  /** The first i children. */
  ghost function ExpandFirst(t: Term, i: nat, env: map<Node, Shape>, ctx: Context): (r: Outcomes)
    requires t.Inner? && i <= |t.kids|
    ensures r.Outs? ==> |r.shapes| == i
    decreases t, 1, i
  {
    if i == 0 then Outs([], env)
    else
      match ExpandFirst(t, i - 1, env, ctx)
      case PanicIn => PanicIn
      case Outs(shapes, env') =>
        match ExpandKid(t.kids[i - 1], env', Place(t, i - 1, shapes, ctx))
        case Panic => PanicIn
        case Out(shape, env'') => Outs(shapes + [shape], env'')
  }

  /** The place of child i. */
  ghost function Place(t: Term, i: nat, shapes: seq<Shape>, ctx: Context): Context
    requires t.Inner? && i < |t.kids|
  {
    In(t.id, t.kind, t.tag, t.value, shapes, t.kids[i + 1..], ctx)
  }

  /** A child: an alias is replaced by an expanded clone of what its target is now. */
  ghost function ExpandKid(k: Term, env: map<Node, Shape>, ctx: Context): Outcome
    decreases k, 3
  {
    match k
    case Hole => Panic
    case Inner(_, _, _, _, _) => Expand(k, env, ctx)
    case Ref(_, target) =>
      if target == null then Out(Nil, env)
      else
        match ClearedRoot(if target in env then env[target] else Seen(ctx, target, AliasLeaf))
        case Panics => Panic
        case Leaves(shape) => Out(shape, env)
  }

  // ---------------------------------------------------------------------------------------
  // A clone: no alias has a target
  // ---------------------------------------------------------------------------------------

  ghost predicate Blank(t: Term) {
    match t
    case Hole => true
    case Ref(_, target) => target == null
    case Inner(_, _, _, _, kids) => forall i :: 0 <= i < |kids| ==> Blank(kids[i])
  }

  /** Expanding a clone depends on nothing but its shape. */
  lemma {:induction false} BlankExpands(t: Term, env: map<Node, Shape>, ctx: Context)
    requires Blank(t)
    ensures match ClearedRoot(Raw(t))
            case Panics => Expand(t, env, ctx).Panic?
            case Leaves(shape) => Expand(t, env, ctx).Out? && Expand(t, env, ctx).shape == shape
    decreases t, 1
  {
    if t.Inner? {
      BlankFirst(t, |t.kids|, env, ctx);
    }
  }

  lemma {:induction false} BlankFirst(t: Term, n: nat, env: map<Node, Shape>, ctx: Context)
    requires t.Inner? && Blank(t) && n <= |t.kids|
    ensures match ClearedFirst(Raw(t), n)
            case PanicsIn => ExpandFirst(t, n, env, ctx).PanicIn?
            case LeavesAll(shapes) => ExpandFirst(t, n, env, ctx).Outs? && ExpandFirst(t, n, env, ctx).shapes == shapes
    decreases t, 0, n
  {
    if n > 0 {
      BlankFirst(t, n - 1, env, ctx);
      var r := ExpandFirst(t, n - 1, env, ctx);
      assert Raw(t).kids[n - 1] == Raw(t.kids[n - 1]);
      if r.Outs? {
        BlankKid(t.kids[n - 1], r.env, Place(t, n - 1, r.shapes, ctx));
      }
    }
  }

  lemma {:induction false} BlankKid(k: Term, env: map<Node, Shape>, ctx: Context)
    requires Blank(k)
    ensures match ClearedChild(Raw(k))
            case Panics => ExpandKid(k, env, ctx).Panic?
            case Leaves(shape) => ExpandKid(k, env, ctx).Out? && ExpandKid(k, env, ctx).shape == shape
    decreases k, 2
  {
    if k.Inner? {
      BlankExpands(k, env, ctx);
    }
  }

  // ---------------------------------------------------------------------------------------
  // When the result is what the text means
  // ---------------------------------------------------------------------------------------

  lemma {:induction false} ExpandKeys(t: Term, env: map<Node, Shape>, ctx: Context)
    ensures Expand(t, env, ctx).Out? ==> Expand(t, env, ctx).env.Keys == env.Keys + Anchors(t)
    decreases t, 1
  {
    if t.Inner? {
      ExpandFirstKeys(t, |t.kids|, env, ctx);
      assert t.kids[..|t.kids|] == t.kids;
    }
  }

  lemma {:induction false} ExpandFirstKeys(t: Term, n: nat, env: map<Node, Shape>, ctx: Context)
    requires t.Inner? && n <= |t.kids|
    ensures ExpandFirst(t, n, env, ctx).Outs? ==>
              ExpandFirst(t, n, env, ctx).env.Keys == env.Keys + AnchorsIn(t.kids[..n])
    decreases t, 0, n
  {
    if n > 0 {
      ExpandFirstKeys(t, n - 1, env, ctx);
      var r := ExpandFirst(t, n - 1, env, ctx);
      assert t.kids[..n][..n - 1] == t.kids[..n - 1];
      if r.Outs? && t.kids[n - 1].Inner? {
        ExpandKeys(t.kids[n - 1], r.env, Place(t, n - 1, r.shapes, ctx));
      }
    }
  }

  ghost function ShapesOf(env: map<Node, Tree>): map<Node, Shape> {
    map m | m in env :: ShapeOf(env[m])
  }

  /** In a text whose anchors come before their aliases and enclose none, the result is the meaning. */
  lemma {:induction false} OrderedExpands(t: Term, env: map<Node, Tree>, ctx: Context)
    requires t.Inner? && Ordered(t, env.Keys)
    ensures Expand(t, ShapesOf(env), ctx) == Out(ShapeOf(Meaning(t, env)), ShapesOf(After(t, env)))
    decreases t, 1
  {
    OrderedFirst(t, |t.kids|, env, ctx);
    assert t.kids[..|t.kids|] == t.kids;
    var ts := MeaningIn(t.kids, env);
    assert ShapeOf(Meaning(t, env)).kids == ShapesAll(ts);
    assert ShapesOf(AfterIn(t.kids, env))[t.id := ShapeOf(Meaning(t, env))] == ShapesOf(After(t, env));
  }

  lemma {:induction false} AfterInKeys(kids: seq<Term>, env: map<Node, Tree>)
    ensures AfterIn(kids, env).Keys == env.Keys + AnchorsIn(kids)
    decreases kids, 1
  {
    if kids != [] {
      var init, last := kids[..|kids| - 1], kids[|kids| - 1];
      AfterInKeys(init, env);
      if last.Inner? {
        AfterInKeys(last.kids, AfterIn(init, env));
      }
    }
  }

  lemma MeaningSnoc(kids: seq<Term>, n: nat, env: map<Node, Tree>)
    requires 0 < n <= |kids|
    ensures var env' := AfterIn(kids[..n - 1], env);
            && MeaningIn(kids[..n], env) == MeaningIn(kids[..n - 1], env) + [Meaning(kids[n - 1], env')]
            && AfterIn(kids[..n], env) == After(kids[n - 1], env')
  {
    assert kids[..n][..n - 1] == kids[..n - 1] && kids[..n][n - 1] == kids[n - 1];
  }

  lemma FirstSnoc(t: Term, n: nat, env: map<Node, Shape>, ctx: Context, r: Outcomes, kid: Outcome)
    requires t.Inner? && 0 < n <= |t.kids| && ExpandFirst(t, n - 1, env, ctx) == r && r.Outs?
    requires ExpandKid(t.kids[n - 1], r.env, Place(t, n - 1, r.shapes, ctx)) == kid && kid.Out?
    ensures ExpandFirst(t, n, env, ctx) == Outs(r.shapes + [kid.shape], kid.env)
  {
  }

  lemma {:induction false} OrderedFirst(t: Term, n: nat, env: map<Node, Tree>, ctx: Context)
    requires t.Inner? && n <= |t.kids| && Ordered(t, env.Keys)
    ensures ExpandFirst(t, n, ShapesOf(env), ctx) ==
            Outs(ShapesAll(MeaningIn(t.kids[..n], env)), ShapesOf(AfterIn(t.kids[..n], env)))
    decreases t, 0, n
  {
    if n > 0 {
      OrderedFirst(t, n - 1, env, ctx);
      AfterInKeys(t.kids[..n - 1], env);
      var env', k := AfterIn(t.kids[..n - 1], env), t.kids[n - 1];
      var r := Outs(ShapesAll(MeaningIn(t.kids[..n - 1], env)), ShapesOf(env'));
      OrderedKid(k, env', Place(t, n - 1, r.shapes, ctx));
      FirstSnoc(t, n, ShapesOf(env), ctx, r, Out(ShapeOf(Meaning(k, env')), ShapesOf(After(k, env'))));
      MeaningSnoc(t.kids, n, env);
      ShapesSnoc(MeaningIn(t.kids[..n - 1], env), Meaning(k, env'));
    } else {
      assert t.kids[..0] == [] && ShapesAll([]) == [];
    }
  }

  lemma {:induction false} OrderedKid(k: Term, env: map<Node, Tree>, ctx: Context)
    requires Ordered(k, env.Keys)
    ensures ExpandKid(k, ShapesOf(env), ctx) == Out(ShapeOf(Meaning(k, env)), ShapesOf(After(k, env)))
    decreases k, 2
  {
    if k.Inner? {
      OrderedExpands(k, env, ctx);
    } else {
      ShapeIsClean(env[k.target]);
      ClearedClean(ShapeOf(env[k.target]));
    }
  }

  /** An enclosing node as seen from a place that is not clean is not clean. */
  lemma {:induction false} SeenDirty(ctx: Context, target: Node, here: Shape)
    requires target in Open(ctx) && !Clean(here)
    ensures Seen(ctx, target, here).Whole? && !Clean(Seen(ctx, target, here))
  {
    var kids := ctx.before + [here] + RawAll(ctx.rest);
    assert kids[|ctx.before|] == here;
    if ctx.id != target {
      SeenDirty(ctx.up, target, Whole(ctx.kind, ctx.tag, ctx.value, kids));
    }
  }

  ghost predicate Broken(r: Outcome) {
    r.Panic? || !Clean(r.shape)
  }

  /** An alias inside its own anchor leaves a nil child, or ends in a panic. */
  lemma {:induction false} UnorderedBreaks(t: Term, env: map<Node, Shape>, ctx: Context)
    requires t.Inner? && Scoped(t, env.Keys, Open(ctx)) && !Ordered(t, env.Keys)
    ensures Broken(Expand(t, env, ctx))
    decreases t, 1
  {
    var i :| 0 <= i < |t.kids| && !Ordered(t.kids[i], env.Keys + AnchorsIn(t.kids[..i]));
    UnorderedAt(t, i, env, ctx);
    FirstKeeps(t, i, |t.kids|, env, ctx);
  }

  lemma {:induction false} UnorderedAt(t: Term, i: nat, env: map<Node, Shape>, ctx: Context)
    requires t.Inner? && Scoped(t, env.Keys, Open(ctx)) && i < |t.kids|
    requires !Ordered(t.kids[i], env.Keys + AnchorsIn(t.kids[..i]))
    ensures var r := ExpandFirst(t, i, env, ctx);
            r.Outs? ==> Broken(ExpandKid(t.kids[i], r.env, Place(t, i, r.shapes, ctx)))
    decreases t, 0
  {
    var r := ExpandFirst(t, i, env, ctx);
    ExpandFirstKeys(t, i, env, ctx);
    if r.Outs? {
      var place := Place(t, i, r.shapes, ctx);
      assert Open(place) == Open(ctx) + {t.id};
      UnorderedKid(t.kids[i], r.env, place);
    }
  }

  lemma {:induction false} UnorderedKid(k: Term, env: map<Node, Shape>, ctx: Context)
    requires Scoped(k, env.Keys, Open(ctx)) && !Ordered(k, env.Keys)
    ensures Broken(ExpandKid(k, env, ctx))
    decreases k, 2
  {
    if k.Inner? {
      UnorderedBreaks(k, env, ctx);
    } else {
      SeenDirty(ctx, k.target, AliasLeaf);
      ClearedDirty(Seen(ctx, k.target, AliasLeaf));
    }
  }

  /** Children once expanded stay as they are. */
  lemma {:induction false} FirstKeeps(t: Term, i: nat, n: nat, env: map<Node, Shape>, ctx: Context)
    requires t.Inner? && i <= n <= |t.kids|
    ensures ExpandFirst(t, n, env, ctx).Outs? ==>
              && ExpandFirst(t, i, env, ctx).Outs?
              && ExpandFirst(t, i, env, ctx).shapes == ExpandFirst(t, n, env, ctx).shapes[..i]
              && (i < n ==>
                    var r := ExpandFirst(t, i, env, ctx);
                    ExpandKid(t.kids[i], r.env, Place(t, i, r.shapes, ctx)).Out? &&
                    ExpandFirst(t, n, env, ctx).shapes[i] ==
                        ExpandKid(t.kids[i], r.env, Place(t, i, r.shapes, ctx)).shape)
    decreases n
  {
    if i < n {
      FirstKeeps(t, i, n - 1, env, ctx);
    }
  }

  ghost predicate CleanOut(r: Outcome) {
    r.Out? && Clean(r.shape)
  }

  /** Expansion ends without a nil child exactly on texts with no alias inside its own anchor. */
  lemma ExpandsCleanlyIff(t: Term)
    requires t.Inner? && Scoped(t, {}, {})
    ensures CleanOut(Expand(t, map[], Top)) <==> Ordered(t, {})
    ensures Ordered(t, {}) ==> Expand(t, map[], Top).shape == ShapeOf(Meaning(t, map[]))
  {
    var none: map<Node, Tree> := map[];
    assert none.Keys == {} && ShapesOf(none) == map[];
    if Ordered(t, {}) {
      OrderedExpands(t, none, Top);
      ShapeIsClean(Meaning(t, none));
    } else {
      var env: map<Node, Shape> := map[];
      assert env.Keys == {};
      UnorderedBreaks(t, env, Top);
    }
  }

  function List(kids: seq<Shape>): Shape {
    Whole(Sequence, "!!seq", "", kids)
  }

  /** What the alias in a sequence that it names itself sees and becomes. */
  lemma AliasSeesItself(t: Term, i: nat, env: map<Node, Shape>, before: seq<Shape>)
    requires t.Inner? && t.kind == Sequence && t.tag == "!!seq" && t.value == "" && i < |t.kids|
    requires t.kids[i].Ref? && t.kids[i].target == t.id && t.id !in env
    ensures var seen := List(before + [AliasLeaf] + RawAll(t.kids[i + 1..]));
            ExpandKid(t.kids[i], env, Place(t, i, before, Top)) ==
              match ClearedRoot(seen) case Panics => Panic case Leaves(shape) => Out(shape, env)
  {
  }

  lemma {:induction false} ClearedLeaves(kids: seq<Shape>, n: nat)
    requires n <= |kids| && forall i :: 0 <= i < |kids| ==> kids[i] == AliasLeaf
    ensures ClearedFirst(List(kids), n) == LeavesAll(seq(n, i => Nil))
  {
    if n > 0 {
      ClearedLeaves(kids, n - 1);
    }
  }

  /** &a [*a] ends with a nil child below the copy of the sequence. */
  lemma OneAliasInItself(a: Node, r: Node)
    ensures var t := Inner(a, Sequence, "!!seq", "", [Ref(r, a)]);
            && Scoped(t, {}, {}) && !Ordered(t, {})
            && Expand(t, map[], Top).Out? && Expand(t, map[], Top).shape == List([List([Nil])])
  {
    var t, env: map<Node, Shape> := Inner(a, Sequence, "!!seq", "", [Ref(r, a)]), map[];
    assert t.kids[..0] == [] && t.kids[1..] == [];
    AliasSeesItself(t, 0, env, []);
    assert [] + [AliasLeaf] + RawAll(t.kids[1..]) == [AliasLeaf];
    ClearedLeaves([AliasLeaf], 1);
    assert seq(1, i => Nil) == [Nil];
    assert ExpandFirst(t, 0, env, Top) == Outs([], env);
    assert [] + [List([Nil])] == [List([Nil])];
  }

  /** &a [*a, *a] ends in the panic: the second clone finds the nil the first one left. */
  lemma TwoAliasesPanic(a: Node, r: Node, r': Node)
    ensures var t := Inner(a, Sequence, "!!seq", "", [Ref(r, a), Ref(r', a)]);
            Scoped(t, {}, {}) && !Ordered(t, {}) && Expand(t, map[], Top).Panic?
  {
    var t, env: map<Node, Shape> := Inner(a, Sequence, "!!seq", "", [Ref(r, a), Ref(r', a)]), map[];
    assert t.kids[..0] == [];
    AliasSeesItself(t, 0, env, []);
    assert [] + [AliasLeaf] + RawAll(t.kids[1..]) == [AliasLeaf, AliasLeaf];
    ClearedLeaves([AliasLeaf, AliasLeaf], 2);
    assert seq(2, i => Nil) == [Nil, Nil];
    var first := List([Nil, Nil]);
    assert [] + [first] == [first];
    assert ExpandFirst(t, 0, env, Top) == Outs([], env) && ExpandFirst(t, 1, env, Top) == Outs([first], env);
    AliasSeesItself(t, 1, env, [first]);
    var seen := List([first] + [AliasLeaf] + RawAll(t.kids[2..]));
    assert ClearedFirst(first, 1).PanicsIn? && ClearedRoot(first).Panics?;
    assert ClearedFirst(seen, 1).PanicsIn? && ClearedRoot(seen).Panics?;
    assert ExpandFirst(t, 2, env, Top).PanicIn?;
  }
}
