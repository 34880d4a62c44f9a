/** Alias expansion in tools/openapi-split/main.go: the yaml.v3 node graph, rewritten in place. */
module YamlGraph {
  import opened YamlTree
  import opened YamlText

  // ---------------------------------------------------------------------------------------
  // What the heap holds
  // ---------------------------------------------------------------------------------------

  /** The graph below n, in the nodes of S, is the one t describes. */
  ghost predicate Mirrors(n: Node?, t: Term, S: set<Node>)
    reads S`kind, S`tag, S`value, S`alias, S`content
    decreases t
  {
    match t
    case Hole => n == null
    case Ref(id, target) => n == id && id in S && id.kind == Alias && id.alias == target && id.content == []
    case Inner(id, kind, tag, value, kids) =>
      && n == id && id in S
      && id.kind == kind != Alias && id.tag == tag && id.value == value
      && |id.content| == |kids|
      && forall i :: 0 <= i < |kids| ==> Mirrors(id.content[i], kids[i], S)
  }

  /** The graph below n, in the nodes of S, has the shape o. */
  ghost predicate Shows(n: Node?, o: Shape, S: set<Node>)
    reads S`kind, S`tag, S`value, S`content
    decreases o
  {
    match o
    case Nil => n == null
    case AliasLeaf => n != null && n in S && n.kind == Alias && n.content == []
    case Whole(kind, tag, value, kids) =>
      && n != null && n in S
      && n.kind == kind != Alias && n.tag == tag && n.value == value
      && |n.content| == |kids|
      && forall i :: 0 <= i < |kids| ==> Shows(n.content[i], kids[i], S)
  }

  /** The graph below n, in the nodes of S, has no alias and no nil child and denotes t. */
  ghost predicate Reads(n: Node?, t: Tree, S: set<Node>)
    reads S`kind, S`tag, S`value, S`content
    decreases t
  {
    && n != null && n in S
    && n.kind == t.kind != Alias && n.tag == t.tag && n.value == t.value
    && |n.content| == |t.kids|
    && forall i :: 0 <= i < |t.kids| ==> Reads(n.content[i], t.kids[i], S)
  }

  lemma {:induction false} ShowsReads(n: Node?, t: Tree, S: set<Node>)
    requires Shows(n, ShapeOf(t), S)
    ensures Reads(n, t, S) && AliasFree(t)
  {
    forall i | 0 <= i < |t.kids| ensures Reads(n.content[i], t.kids[i], S) && AliasFree(t.kids[i]) {
      assert ShapeOf(t).kids[i] == ShapeOf(t.kids[i]);
      ShowsReads(n.content[i], t.kids[i], S);
    }
  }

  /** Every node completed so far is as the text makes it. */
  ghost predicate Known(env: map<Node, Shape>, S: set<Node>)
    reads S`kind, S`tag, S`value, S`content
  {
    forall m :: m in env ==> Shows(m, env[m], S)
  }

  /** The enclosing nodes are in Q, half expanded as ctx says, and child stands at the place itself. */
  ghost predicate Surrounds(ctx: Context, child: Node?, S: set<Node>, Q: set<Node>)
    reads S`kind, S`tag, S`value, S`content
    reads Q`kind, Q`tag, Q`value, Q`alias, Q`content
    decreases ctx
  {
    ctx.In? ==>
      && ctx.id in Q && ctx.id.kind == ctx.kind != Alias && ctx.id.tag == ctx.tag && ctx.id.value == ctx.value
      && |ctx.id.content| == |ctx.before| + 1 + |ctx.rest|
      && (forall j :: 0 <= j < |ctx.before| ==> Shows(ctx.id.content[j], ctx.before[j], S))
      && ctx.id.content[|ctx.before|] == child
      && (forall j :: 0 <= j < |ctx.rest| ==> Mirrors(ctx.id.content[|ctx.before| + 1 + j], ctx.rest[j], Q))
      && Surrounds(ctx.up, ctx.id, S, Q)
  }

  lemma {:induction false} IdsInContains(kids: seq<Term>, i: nat)
    requires i < |kids|
    ensures Ids(kids[i]) <= IdsIn(kids)
  {
    if i < |kids| - 1 {
      IdsInContains(kids[..|kids| - 1], i);
    }
  }

  lemma {:induction false} IdsInFrom(kids: seq<Term>, m: Node) returns (i: nat)
    requires m in IdsIn(kids)
    ensures i < |kids| && m in Ids(kids[i])
  {
    if m in Ids(kids[|kids| - 1]) {
      i := |kids| - 1;
    } else {
      i := IdsInFrom(kids[..|kids| - 1], m);
    }
  }

  lemma {:induction false} MirrorsGrows(n: Node?, t: Term, S: set<Node>, S': set<Node>)
    requires Mirrors(n, t, S) && S <= S'
    ensures Mirrors(n, t, S')
  {
    if t.Inner? {
      forall i | 0 <= i < |t.kids| ensures Mirrors(t.id.content[i], t.kids[i], S') {
        MirrorsGrows(t.id.content[i], t.kids[i], S, S');
      }
    }
  }

  lemma {:induction false} MirrorsShrinks(n: Node?, t: Term, S: set<Node>)
    requires Mirrors(n, t, S)
    ensures Mirrors(n, t, Ids(t))
  {
    if t.Inner? {
      forall i | 0 <= i < |t.kids| ensures Mirrors(t.id.content[i], t.kids[i], Ids(t)) {
        MirrorsShrinks(t.id.content[i], t.kids[i], S);
        IdsInContains(t.kids, i);
        MirrorsGrows(t.id.content[i], t.kids[i], Ids(t.kids[i]), Ids(t));
      }
    }
  }

  lemma {:induction false} ShowsGrows(n: Node?, o: Shape, S: set<Node>, S': set<Node>)
    requires Shows(n, o, S) && S <= S'
    ensures Shows(n, o, S')
  {
    if o.Whole? {
      forall i | 0 <= i < |o.kids| ensures Shows(n.content[i], o.kids[i], S') {
        ShowsGrows(n.content[i], o.kids[i], S, S');
      }
    }
  }

  lemma ShowsAll(ns: seq<Node?>, os: seq<Shape>, S: set<Node>, S': set<Node>)
    requires |ns| == |os| && S <= S'
    requires forall j :: 0 <= j < |ns| ==> Shows(ns[j], os[j], S)
    ensures forall j :: 0 <= j < |ns| ==> Shows(ns[j], os[j], S')
  {
    forall j | 0 <= j < |ns| ensures Shows(ns[j], os[j], S') {
      ShowsGrows(ns[j], os[j], S, S');
    }
  }

  lemma KnownGrows(env: map<Node, Shape>, S: set<Node>, S': set<Node>)
    requires Known(env, S) && S <= S'
    ensures Known(env, S')
  {
    forall m | m in env ensures Shows(m, env[m], S') {
      ShowsGrows(m, env[m], S, S');
    }
  }

  /** What is still as the text has it shows the raw text. */
  lemma {:induction false} MirrorsShows(n: Node?, t: Term, S: set<Node>)
    requires Mirrors(n, t, S)
    ensures Shows(n, Raw(t), S)
  {
    if t.Inner? {
      forall i | 0 <= i < |t.kids| ensures Shows(n.content[i], Raw(t).kids[i], S) {
        MirrorsShows(n.content[i], t.kids[i], S);
      }
    }
  }

  /** Surroundings stay when more is known. */
  lemma {:induction false} SurroundsGrows(ctx: Context, child: Node?, S: set<Node>, Q: set<Node>, S': set<Node>,
      Q': set<Node>)
    requires Surrounds(ctx, child, S, Q) && S <= S' && Q <= Q'
    ensures Surrounds(ctx, child, S', Q')
  {
    if ctx.In? {
      ShowsAll(ctx.id.content[..|ctx.before|], ctx.before, S, S');
      forall j | 0 <= j < |ctx.rest| ensures Mirrors(ctx.id.content[|ctx.before| + 1 + j], ctx.rest[j], Q') {
        MirrorsGrows(ctx.id.content[|ctx.before| + 1 + j], ctx.rest[j], Q, Q');
      }
      SurroundsGrows(ctx.up, ctx.id, S, Q, S', Q');
    }
  }

  /** One enclosing node, from the shape at its place. */
  lemma EnclosingShows(ctx: Context, child: Node?, here: Shape, S: set<Node>, Q: set<Node>, W: set<Node>)
    requires ctx.In? && Surrounds(ctx, child, S, Q) && S <= W && Q <= W && Shows(child, here, W)
    ensures Shows(ctx.id, Whole(ctx.kind, ctx.tag, ctx.value, ctx.before + [here] + RawAll(ctx.rest)), W)
  {
    var kids, content, b := ctx.before + [here] + RawAll(ctx.rest), ctx.id.content, |ctx.before|;
    ShowsAll(content[..b], ctx.before, S, W);
    forall i | 0 <= i < |kids| ensures Shows(content[i], kids[i], W) {
      if i < b {
        assert content[i] == content[..b][i] && kids[i] == ctx.before[i];
      } else if i > b {
        var j := i - b - 1;
        assert kids[i] == Raw(ctx.rest[j]);
        MirrorsGrows(content[b + 1 + j], ctx.rest[j], Q, W);
        MirrorsShows(content[b + 1 + j], ctx.rest[j], W);
      }
    }
  }

  /** An enclosing node shows what is seen of it from the place. */
  lemma {:induction false} SeenShows(
      ctx: Context, child: Node?, here: Shape, target: Node, S: set<Node>, Q: set<Node>, W: set<Node>)
    requires Surrounds(ctx, child, S, Q) && S <= W && Q <= W && Shows(child, here, W) && target in Open(ctx)
    ensures Shows(target, Seen(ctx, target, here), W)
    decreases ctx
  {
    EnclosingShows(ctx, child, here, S, Q, W);
    if ctx.id != target {
      var whole := Whole(ctx.kind, ctx.tag, ctx.value, ctx.before + [here] + RawAll(ctx.rest));
      SeenShows(ctx.up, ctx.id, whole, target, S, Q, W);
    }
  }

  // ---------------------------------------------------------------------------------------
  // Cloning
  // ---------------------------------------------------------------------------------------

  /** c is a copy of the shape o on the nodes of u, none of which has an anchor or an alias target. */
  ghost predicate Copy(c: Node?, u: Term, o: Shape)
    reads Ids(u)
  {
    && Blank(u) && Distinct(u) && Raw(u) == o && Mirrors(c, u, Ids(u))
    && forall m :: m in Ids(u) ==> m.anchor == "" && m.alias == null
  }

  ghost predicate Copies(cs: seq<Node?>, us: seq<Term>, os: seq<Shape>, S: set<Node>)
    reads S
  {
    && |cs| == |us| <= |os|
    && (forall j :: 0 <= j < |us| ==> Ids(us[j]) <= S && Copy(cs[j], us[j], os[j]))
    && (forall j, k :: 0 <= j < k < |us| ==> Ids(us[j]) !! Ids(us[k]))
  }

  lemma CopiesNext(cs: seq<Node?>, us: seq<Term>, os: seq<Shape>, S: set<Node>, c: Node?, u: Term)
    requires Copies(cs, us, os, S) && |us| < |os|
    requires Copy(c, u, os[|us|]) && Ids(u) !! S
    ensures Copies(cs + [c], us + [u], os, S + Ids(u))
  {
  }

  /** Copies of all the children, under a node of their own, are a copy of the parent. */
  lemma CopyWhole(c: Node, kids: seq<Term>, o: Shape, S: set<Node>) returns (u: Term)
    requires o.Whole? && c.kind == o.kind != Alias && c.tag == o.tag && c.value == o.value
    requires c.anchor == "" && c.alias == null
    requires S == IdsIn(kids) && c !in S && Copies(c.content, kids, o.kids, S) && |kids| == |o.kids|
    ensures Ids(u) == S + {c} && Copy(c, u, o)
  {
    u := Inner(c, o.kind, o.tag, o.value, kids);
    forall j | 0 <= j < |kids| ensures Mirrors(c.content[j], kids[j], Ids(u)) {
      MirrorsGrows(c.content[j], kids[j], Ids(kids[j]), Ids(u));
    }
    forall m | m in Ids(u) ensures m.anchor == "" && m.alias == null {
      if m != c {
        var j := IdsInFrom(kids, m);
        assert Copy(c.content[j], kids[j], o.kids[j]);
      }
    }
    assert Distinct(u);
    assert Raw(u).kids == o.kids;
  }

  /** cloneNode: a deep copy on new nodes, without anchors and alias targets; nil is copied as nil. */
  method CloneNode(n: Node?, ghost o: Shape, ghost S: set<Node>) returns (c: Node?, ghost u: Term)
    requires Shows(n, o, S)
    ensures fresh(Ids(u)) && Copy(c, u, o)
    decreases o, 1
  {
    if n == null {
      return null, Hole;
    }
    ghost var kids, nodes;
    var content;
    content, kids, nodes := CloneContent(n.content, o, S);
    var copy := new Node(n.kind, n.tag, n.value, "", null, content);
    if copy.kind == Alias {
      u := Ref(copy, null);
    } else {
      u := CopyWhole(copy, kids, o, nodes);
    }
    c := copy;
  }

  /** The loop of cloneNode over the children. */
  method CloneContent(ns: seq<Node?>, ghost o: Shape, ghost S: set<Node>)
    returns (cs: seq<Node?>, ghost us: seq<Term>, ghost nodes: set<Node>)
    requires |ns| == |Kids(o)| && forall j :: 0 <= j < |ns| ==> Shows(ns[j], Kids(o)[j], S)
    ensures |us| == |ns| && Copies(cs, us, Kids(o), nodes) && nodes == IdsIn(us) && fresh(nodes)
    decreases o, 0
  {
    cs, us, nodes := [], [], {};
    for i := 0 to |ns|
      invariant |us| == i && Copies(cs, us, Kids(o), nodes) && nodes == IdsIn(us) && fresh(nodes)
    {
      var c, u := CloneNode(ns[i], Kids(o)[i], S);
      CopiesNext(cs, us, Kids(o), nodes, c, u);
      assert (us + [u])[..i] == us;
      cs, us, nodes := cs + [c], us + [u], nodes + Ids(u);
    }
  }

  // ---------------------------------------------------------------------------------------
  // Expansion
  // ---------------------------------------------------------------------------------------

  /** Every alias has no target, or one that is completed before it or encloses it. */
  ghost predicate Named(t: Term, done: set<Node>, open: set<Node>) {
    match t
    case Hole => true
    case Ref(_, target) => target == null || target in done || target in open
    case Inner(id, _, _, _, kids) =>
      forall i :: 0 <= i < |kids| ==> Named(kids[i], done + AnchorsIn(kids[..i]), open + {id})
  }

  lemma {:induction false} ScopedNamed(t: Term, done: set<Node>, open: set<Node>)
    requires Scoped(t, done, open)
    ensures Named(t, done, open)
  {
    if t.Inner? {
      forall i | 0 <= i < |t.kids| ensures Named(t.kids[i], done + AnchorsIn(t.kids[..i]), open + {t.id}) {
        ScopedNamed(t.kids[i], done + AnchorsIn(t.kids[..i]), open + {t.id});
      }
    }
  }

  lemma {:induction false} BlankNamed(t: Term, done: set<Node>, open: set<Node>)
    requires Blank(t)
    ensures Named(t, done, open)
  {
    if t.Inner? {
      forall i | 0 <= i < |t.kids| ensures Named(t.kids[i], done + AnchorsIn(t.kids[..i]), open + {t.id}) {
        BlankNamed(t.kids[i], done + AnchorsIn(t.kids[..i]), open + {t.id});
      }
    }
  }

  ghost function Pending(kids: seq<Term>): set<Node> {
    if kids == [] then {} else Ids(kids[0]) + Pending(kids[1..])
  }

  /** The other children are still as the text has them, on nodes of their own. */
  ghost predicate Todo(content: seq<Node?>, kids: seq<Term>)
    reads Pending(kids)
  {
    && |content| == |kids|
    && (kids != [] ==>
          && Distinct(kids[0])
          && Ids(kids[0]) !! Pending(kids[1..])
          && Mirrors(content[0], kids[0], Ids(kids[0]))
          && Todo(content[1..], kids[1..]))
  }

  lemma {:induction false} PendingWithin(kids: seq<Term>, T: set<Node>)
    requires forall j :: 0 <= j < |kids| ==> Ids(kids[j]) <= T
    ensures Pending(kids) <= T
  {
    if kids != [] {
      PendingWithin(kids[1..], T);
    }
  }

  lemma {:induction false} TodoStart(content: seq<Node?>, kids: seq<Term>, T: set<Node>)
    requires |content| == |kids|
    requires forall j :: 0 <= j < |kids| ==> Distinct(kids[j]) && Mirrors(content[j], kids[j], T)
    requires forall j, k :: 0 <= j < k < |kids| ==> Ids(kids[j]) !! Ids(kids[k])
    ensures Todo(content, kids)
  {
    if kids != [] {
      TodoStart(content[1..], kids[1..], T);
      MirrorsShrinks(content[0], kids[0], T);
      PendingApart(kids[1..], Ids(kids[0]));
    }
  }

  lemma {:induction false} PendingApart(kids: seq<Term>, U: set<Node>)
    requires forall j :: 0 <= j < |kids| ==> Ids(kids[j]) !! U
    ensures Pending(kids) !! U
  {
    if kids != [] {
      PendingApart(kids[1..], U);
    }
  }

  lemma {:induction false} TodoMirrors(content: seq<Node?>, kids: seq<Term>, j: nat, Q: set<Node>)
    requires Todo(content, kids) && j < |kids| && Pending(kids) <= Q
    ensures Mirrors(content[j], kids[j], Q)
  {
    if j == 0 {
      MirrorsGrows(content[0], kids[0], Ids(kids[0]), Q);
    } else {
      TodoMirrors(content[1..], kids[1..], j - 1, Q);
    }
  }

  /** The first i children are expanded as the text says, the others are still to come. */
  ghost predicate Progress(
      n: Node, t: Term, i: nat, T: set<Node>, env: map<Node, Shape>, ctx: Context, S: set<Node>)
    reads n, S, T
  {
    && t.Inner? && n == t.id && n !in S && i <= |t.kids| == |n.content|
    && n.kind == t.kind != Alias && n.tag == t.tag && n.value == t.value
    && Done(n.content, ExpandFirst(t, i, env, ctx), S)
    && Pending(t.kids[i..]) <= T - S - {n}
    && Todo(n.content[i..], t.kids[i..])
  }

  ghost predicate Done(content: seq<Node?>, r: Outcomes, S: set<Node>)
    reads S
  {
    && r.Outs? && |r.shapes| <= |content|
    && (forall j :: 0 <= j < |r.shapes| ==> Shows(content[j], r.shapes[j], S))
    && Known(r.env, S)
  }

  function TermKids(t: Term): nat {
    if t.Inner? then |t.kids| else 0
  }

  /** Before child i of a node; an alias node has no children. */
  ghost predicate AtChild(
      n: Node, t: Term, i: nat, T: set<Node>, env: map<Node, Shape>, ctx: Context, S: set<Node>)
    reads n, S, T
  {
    if t.Inner? then Progress(n, t, i, T, env, ctx, S)
    else t.Ref? && n !in S && n.kind == Alias && n.content == [] && Known(env, S)
  }

  lemma Start(n: Node, t: Term, T: set<Node>, env: map<Node, Shape>, ctx: Context, S: set<Node>)
    requires T == Ids(t) && Mirrors(n, t, T) && Distinct(t) && T !! S && Known(env, S)
    ensures |n.content| == TermKids(t) && n in T && AtChild(n, t, 0, T, env, ctx, S)
  {
    if t.Inner? {
      assert n.content[0..] == n.content && t.kids[0..] == t.kids;
      forall j | 0 <= j < |t.kids| ensures Ids(t.kids[j]) <= IdsIn(t.kids) {
        IdsInContains(t.kids, j);
      }
      PendingWithin(t.kids, IdsIn(t.kids));
      TodoStart(n.content, t.kids, T);
    }
  }

  /** All children done: their parent is as the text says. */
  lemma Finish(n: Node, t: Term, T: set<Node>, env: map<Node, Shape>, ctx: Context, S: set<Node>)
    requires AtChild(n, t, TermKids(t), T, env, ctx, S)
    ensures Expand(t, env, ctx).Out?
    ensures Shows(n, Expand(t, env, ctx).shape, S + {n}) && Known(Expand(t, env, ctx).env, S + {n})
  {
    if t.Inner? {
      var r := ExpandFirst(t, |t.kids|, env, ctx);
      ShowsAll(n.content, r.shapes, S, S + {n});
      KnownGrows(r.env, S, S + {n});
    } else {
      KnownGrows(env, S, S + {n});
    }
  }

  /** Holes first, then clones, then texts with alias targets. */
  ghost function Rank(t: Term): nat {
    if t.Hole? then 0 else if Blank(t) then 1 else 2
  }

  /**
   * expandAliases: every alias below n is overwritten by an expanded copy of what its target is by then;
   * it comes back without ok where the source dereferences a nil child.  S' are the nodes that hold what
   * is known.
   */
  method ExpandAliases(n: Node?, ghost t: Term, ghost T: set<Node>, ghost env: map<Node, Shape>, ghost S: set<Node>,
                       ghost ctx: Context, ghost Q: set<Node>)
    returns (ok: bool, ghost S': set<Node>)
    requires T == Ids(t) && Mirrors(n, t, T) && Distinct(t) && T !! S && T !! Q
    requires Named(t, env.Keys, Open(ctx)) && Known(env, S) && Surrounds(ctx, n, S, Q)
    modifies T`content
    ensures ok <==> Expand(t, env, ctx).Out?
    ensures ok ==> Shows(n, Expand(t, env, ctx).shape, S') && Known(Expand(t, env, ctx).env, S')
    ensures S <= S' && fresh(S' - S - T)
    decreases Rank(t), t, 1
  {
    ok, S' := true, S;
    if n == null {
      return;
    }
    ok, S' := ExpandContent(n, t, T, env, S, ctx, Q);
    if ok {
      Finish(n, t, T, env, ctx, S');
      S' := S' + {n};
    }
  }

  /** Its loop over the children. */
  method ExpandContent(n: Node, ghost t: Term, ghost T: set<Node>, ghost env: map<Node, Shape>, ghost S: set<Node>,
                       ghost ctx: Context, ghost Q: set<Node>)
    returns (ok: bool, ghost S': set<Node>)
    requires T == Ids(t) && Mirrors(n, t, T) && Distinct(t) && T !! S && T !! Q
    requires Named(t, env.Keys, Open(ctx)) && Known(env, S) && Surrounds(ctx, n, S, Q)
    modifies T`content
    ensures ok ==> AtChild(n, t, TermKids(t), T, env, ctx, S')
    ensures !ok ==> Expand(t, env, ctx).Panic?
    ensures S <= S' && fresh(S' - S - T)
    decreases Rank(t), t, 0
  {
    ok, S' := true, S;
    Start(n, t, T, env, ctx, S);
    for i := 0 to |n.content|
      invariant |n.content| == TermKids(t) && AtChild(n, t, i, T, env, ctx, S')
      invariant S <= S' && fresh(S' - S - T)
      invariant Surrounds(ctx, n, S', Q)
    {
      RankOfKid(t, i);
      ok, S' := ExpandAt(n, i, t, T, env, S', ctx, Q);
      if !ok {
        Panicked(t, i + 1, |t.kids|, env, ctx);
        return;
      }
    }
  }

  lemma RankOfKid(t: Term, i: nat)
    requires t.Inner? && i < |t.kids|
    ensures Rank(t.kids[i]) <= Rank(t) && t.kids[i] < t
  {
  }

  lemma {:induction false} Panicked(t: Term, i: nat, n: nat, env: map<Node, Shape>, ctx: Context)
    requires t.Inner? && i <= n <= |t.kids| && ExpandFirst(t, i, env, ctx).PanicIn?
    ensures ExpandFirst(t, n, env, ctx).PanicIn?
    ensures n == |t.kids| ==> Expand(t, env, ctx).Panic?
    decreases n
  {
    if i < n {
      Panicked(t, i, n - 1, env, ctx);
    }
  }

  /** What the next child finds: its own text, and everything around it. */
  lemma Head(n: Node, t: Term, i: nat, T: set<Node>, env: map<Node, Shape>, S: set<Node>, ctx: Context, Q: set<Node>)
    requires Progress(n, t, i, T, env, ctx, S) && i < |t.kids|
    requires Named(t, env.Keys, Open(ctx)) && Surrounds(ctx, n, S, Q) && T !! Q && n in T
    ensures var r := ExpandFirst(t, i, env, ctx);
            var k, place, around := t.kids[i], Place(t, i, r.shapes, ctx), Q + {n} + Pending(t.kids[i + 1..]);
            && Distinct(k) && Mirrors(n.content[i], k, Ids(k))
            && Ids(k) <= T - S - {n} && Ids(k) !! around && Pending(t.kids[i + 1..]) <= T - S - {n}
            && Named(k, r.env.Keys, Open(place)) && Surrounds(place, n.content[i], S, around)
            && Todo(n.content[i + 1..], t.kids[i + 1..])
  {
    var r := ExpandFirst(t, i, env, ctx);
    var rest, around := t.kids[i + 1..], Q + {n} + Pending(t.kids[i + 1..]);
    assert t.kids[i..][1..] == rest && n.content[i..][1..] == n.content[i + 1..];
    ExpandFirstKeys(t, i, env, ctx);
    assert Open(Place(t, i, r.shapes, ctx)) == Open(ctx) + {n};
    SurroundsGrows(ctx, n, S, Q, S, around);
    forall j | 0 <= j < |rest| ensures Mirrors(n.content[i + 1 + j], rest[j], around) {
      TodoMirrors(n.content[i + 1..], rest, j, around);
      assert n.content[i + 1..][j] == n.content[i + 1 + j];
    }
  }

  /** One turn of that loop. */
  method ExpandAt(n: Node, i: nat, ghost t: Term, ghost T: set<Node>, ghost env: map<Node, Shape>, ghost S: set<Node>,
                  ghost ctx: Context, ghost Q: set<Node>)
    returns (ok: bool, ghost S': set<Node>)
    requires Progress(n, t, i, T, env, ctx, S) && i < |t.kids|
    requires Named(t, env.Keys, Open(ctx)) && Surrounds(ctx, n, S, Q) && T !! Q && n in T
    modifies n`content, (T - {n})`content
    ensures ok ==> Progress(n, t, i + 1, T, env, ctx, S')
    ensures !ok ==> ExpandFirst(t, i + 1, env, ctx).PanicIn?
    ensures S <= S' && fresh(S' - S - T) && |n.content| == |old(n.content)|
    ensures Surrounds(ctx, n, S', Q)
    decreases Rank(t.kids[i]), t.kids[i], 3
  {
    Head(n, t, i, T, env, S, ctx, Q);
    ghost var r := ExpandFirst(t, i, env, ctx);
    var c: Node?;
    ok, c, S' := ExpandChild(n.content[i], t.kids[i], Ids(t.kids[i]), r.env, S, Place(t, i, r.shapes, ctx),
                             Q + {n} + Pending(t.kids[i + 1..]));
    SurroundsGrows(ctx, n, S, Q, S', Q);
    if ok {
      DoneNext(n.content, t, i, env, ctx, S, c, S');
      SetChild(n, i, c, t, T, env, S', ctx);
    }
  }

  lemma DoneNext(content: seq<Node?>, t: Term, i: nat, env: map<Node, Shape>, ctx: Context,
                 S: set<Node>, c: Node?, S': set<Node>)
    requires t.Inner? && i < |t.kids| == |content| && Done(content, ExpandFirst(t, i, env, ctx), S) && S <= S'
    requires var r := ExpandFirst(t, i, env, ctx);
             var kid := ExpandKid(t.kids[i], r.env, Place(t, i, r.shapes, ctx));
             kid.Out? && Shows(c, kid.shape, S') && Known(kid.env, S')
    ensures Done(content[i := c], ExpandFirst(t, i + 1, env, ctx), S')
  {
    ShowsAll(content[..i], ExpandFirst(t, i, env, ctx).shapes, S, S');
  }

  /** n.Content[i] = c. */
  method SetChild(n: Node, i: nat, c: Node?, ghost t: Term, ghost T: set<Node>, ghost env: map<Node, Shape>,
                  ghost S: set<Node>, ghost ctx: Context)
    requires t.Inner? && n == t.id && n !in S && i < |t.kids| == |n.content|
    requires n.kind == t.kind != Alias && n.tag == t.tag && n.value == t.value
    requires Done(n.content[i := c], ExpandFirst(t, i + 1, env, ctx), S)
    requires Pending(t.kids[i + 1..]) <= T - S - {n} && Todo(n.content[i + 1..], t.kids[i + 1..])
    modifies n`content
    ensures n.content == old(n.content)[i := c] && Progress(n, t, i + 1, T, env, ctx, S)
  {
    assert n.content[i := c][i + 1..] == n.content[i + 1..];
    n.content := n.content[i := c];
  }

  /** What an alias is replaced by a clone of. */
  ghost function Source(k: Term, env: map<Node, Shape>, ctx: Context): Shape
    requires k.Ref?
  {
    if k.target == null then Nil
    else if k.target in env then env[k.target]
    else Seen(ctx, k.target, AliasLeaf)
  }

  lemma SourceShows(ch: Node, k: Term, T: set<Node>, env: map<Node, Shape>, S: set<Node>, ctx: Context, Q: set<Node>)
    requires k.Ref? && T == Ids(k) && Mirrors(ch, k, T)
    requires Named(k, env.Keys, Open(ctx)) && Known(env, S) && Surrounds(ctx, ch, S, Q)
    ensures Shows(ch.alias, Source(k, env, ctx), S + Q + T)
  {
    if k.target != null {
      if k.target in env {
        ShowsGrows(k.target, env[k.target], S, S + Q + T);
      } else {
        SeenShows(ctx, ch, AliasLeaf, k.target, S, Q, S + Q + T);
      }
    }
  }

  /** The body of that loop: what to put where ch was. */
  method ExpandChild(ch: Node?, ghost k: Term, ghost T: set<Node>, ghost env: map<Node, Shape>, ghost S: set<Node>,
                     ghost ctx: Context, ghost Q: set<Node>)
    returns (ok: bool, c: Node?, ghost S': set<Node>)
    requires T == Ids(k) && Mirrors(ch, k, T) && Distinct(k) && T !! S && T !! Q
    requires Named(k, env.Keys, Open(ctx)) && Known(env, S) && Surrounds(ctx, ch, S, Q)
    modifies T`content
    ensures ok <==> ExpandKid(k, env, ctx).Out?
    ensures ok ==> Shows(c, ExpandKid(k, env, ctx).shape, S') && Known(ExpandKid(k, env, ctx).env, S')
    ensures S <= S' && fresh(S' - S - T)
    decreases Rank(k), k, 2
  {
    if ch == null {
      return false, null, S;
    }
    if ch.kind == Alias {
      SourceShows(ch, k, T, env, S, ctx, Q);
      ghost var u;
      c, u := CloneNode(ch.alias, Source(k, env, ctx), S + Q + T);
      BlankNamed(u, env.Keys, {});
      BlankExpands(u, env, Top);
      ok, S' := ExpandAliases(c, u, Ids(u), env, S, Top, {});
      KnownGrows(env, S, S');
    } else {
      ok, S' := ExpandAliases(ch, k, T, env, S, ctx, Q);
      c := ch;
    }
  }

  // ---------------------------------------------------------------------------------------
  // Clearing anchors
  // ---------------------------------------------------------------------------------------

  /** clearAnchors: C is the set of nodes below n, none of which has an anchor afterwards. */
  method ClearAnchors(n: Node?, ghost o: Shape, ghost S: set<Node>) returns (ghost C: set<Node>)
    requires Shows(n, o, S)
    modifies S`anchor
    ensures C <= S && Shows(n, o, C) && forall m :: m in C ==> m.anchor == ""
    ensures forall m :: m in S ==> m.anchor == "" || m.anchor == old(m.anchor)
    decreases o, 1
  {
    C := {};
    if n == null {
      return;
    }
    n.anchor := "";
    C := ClearContent(n.content, o, S);
    ShowsAll(n.content, Kids(o), C, C + {n});
    C := C + {n};
  }

  /** The loop of clearAnchors over the children. */
  method ClearContent(ns: seq<Node?>, ghost o: Shape, ghost S: set<Node>) returns (ghost C: set<Node>)
    requires |ns| == |Kids(o)| && forall j :: 0 <= j < |ns| ==> Shows(ns[j], Kids(o)[j], S)
    modifies S`anchor
    ensures C <= S && forall m :: m in C ==> m.anchor == ""
    ensures forall j :: 0 <= j < |ns| ==> Shows(ns[j], Kids(o)[j], C)
    ensures forall m :: m in S ==> m.anchor == "" || m.anchor == old(m.anchor)
    decreases o, 0
  {
    C := {};
    for i := 0 to |ns|
      invariant C <= S && forall m :: m in C ==> m.anchor == ""
      invariant forall j :: 0 <= j < |ns| ==> Shows(ns[j], Kids(o)[j], S)
      invariant forall j :: 0 <= j < i ==> Shows(ns[j], Kids(o)[j], C)
      invariant forall m :: m in S ==> m.anchor == "" || m.anchor == old(m.anchor)
    {
      ghost var D := ClearAnchors(ns[i], Kids(o)[i], S);
      ShowsAll(ns[..i], Kids(o)[..i], C, C + D);
      ShowsGrows(ns[i], Kids(o)[i], D, C + D);
      C := C + D;
    }
  }

  /**
   * What split and merge do to a document they have just parsed.  It ends; it ends without a panic and
   * without a nil child exactly if no alias lies inside its own anchor; and then the root denotes what the
   * text means.
   */
  method ExpandDocument(root: Node, ghost t: Term, ghost T: set<Node>)
      returns (ok: bool, ghost o: Shape, ghost C: set<Node>)
    requires t.Inner? && T == Ids(t) && Mirrors(root, t, T) && Distinct(t) && Scoped(t, {}, {})
    modifies T`content, T`anchor
    ensures ok ==> Shows(root, o, C) && forall m :: m in C ==> m.anchor == ""
    ensures ok && Clean(o) <==> Ordered(t, {})
    ensures Ordered(t, {}) ==> Reads(root, Meaning(t, map[]), C) && AliasFree(Meaning(t, map[]))
  {
    ghost var env: map<Node, Shape> := map[];
    assert env.Keys == {};
    ScopedNamed(t, {}, {});
    ExpandsCleanlyIff(t);
    ghost var S;
    ok, S := ExpandAliases(root, t, T, env, {}, Top, {});
    o, C := Nil, {};
    if ok {
      o := Expand(t, env, Top).shape;
      C := ClearAnchors(root, o, S);
      if Ordered(t, {}) {
        ShowsReads(root, Meaning(t, map[]), C);
      }
    }
  }

  lemma {:induction false} ReadsGrows(n: Node?, t: Tree, S: set<Node>, S': set<Node>)
    requires Reads(n, t, S) && S <= S'
    ensures Reads(n, t, S')
  {
    forall i | 0 <= i < |t.kids| ensures Reads(n.content[i], t.kids[i], S') {
      ReadsGrows(n.content[i], t.kids[i], S, S');
    }
  }

  lemma ReadsAll(ns: seq<Node?>, ts: seq<Tree>, S: set<Node>, S': set<Node>)
    requires |ns| == |ts| && S <= S'
    requires forall j :: 0 <= j < |ns| ==> Reads(ns[j], ts[j], S)
    ensures forall j :: 0 <= j < |ns| ==> Reads(ns[j], ts[j], S')
  {
    forall j | 0 <= j < |ns| ensures Reads(ns[j], ts[j], S') {
      ReadsGrows(ns[j], ts[j], S, S');
    }
  }

  /** setMapScalar on a mapping whose content other nodes hold. */
  method SetMapScalar(m: Node, key: string, val: string, ghost ts: seq<Tree>, ghost S: set<Node>)
    returns (ghost S': set<Node>)
    requires m !in S && Holds(m.content, ts, S)
    modifies m`content
    ensures S <= S' && Holds(m.content, SetScalar(ts, key, val), S')
  {
    var i := 0;
    while i + 1 < |m.content|
      invariant 0 <= i <= |m.content|
      invariant m.content == old(m.content)
      invariant SetScalar(ts, key, val) == ts[..i] + SetScalar(ts[i..], key, val)
    {
      if m.content[i].value == key {
        SetScalarAt(ts, key, val, i);
        S' := ReplaceScalar(m, i + 1, val, ts, S);
        return;
      }
      SetScalarSkip(ts, key, val, i);
      i := i + 2;
    }
    SetScalarEnd(ts, key, val, i);
    S' := AppendScalar(m, key, val, ts, S);
  }

  /** m.Content[i] = scalar(val). */
  method ReplaceScalar(m: Node, i: nat, val: string, ghost ts: seq<Tree>, ghost S: set<Node>)
    returns (ghost S': set<Node>)
    requires m !in S && Holds(m.content, ts, S) && i < |ts|
    modifies m`content
    ensures S <= S' && Holds(m.content, ts[i := ScalarTree(val)], S')
  {
    var s := new Node(Scalar, "!!str", val, "", null, []);
    HoldsUpdate(m.content, ts, S, i, s, ScalarTree(val));
    S' := S + {s};
    m.content := m.content[i := s];
  }

  /** appendKV(m, key, scalar(val)). */
  method AppendScalar(m: Node, key: string, val: string, ghost ts: seq<Tree>, ghost S: set<Node>)
    returns (ghost S': set<Node>)
    requires m !in S && Holds(m.content, ts, S)
    modifies m`content
    ensures S <= S' && Holds(m.content, ts + [ScalarTree(key), ScalarTree(val)], S')
  {
    var k := new Node(Scalar, "!!str", key, "", null, []);
    var v := new Node(Scalar, "!!str", val, "", null, []);
    HoldsAppend(m.content, ts, S, k, ScalarTree(key));
    HoldsAppend(m.content + [k], ts + [ScalarTree(key)], S + {k}, v, ScalarTree(val));
    S' := S + {k} + {v};
    assert m.content + [k, v] == m.content + [k] + [v];
    assert ts + [ScalarTree(key), ScalarTree(val)] == ts + [ScalarTree(key)] + [ScalarTree(val)];
    m.content := m.content + [k, v];
  }

  lemma HoldsAppend(ns: seq<Node?>, ts: seq<Tree>, S: set<Node>, r: Node, t: Tree)
    requires Holds(ns, ts, S) && Reads(r, t, S + {r})
    ensures Holds(ns + [r], ts + [t], S + {r})
  {
    ReadsAll(ns, ts, S, S + {r});
  }

  /** The nodes ns denote ts, in the nodes of S. */
  ghost predicate Holds(ns: seq<Node?>, ts: seq<Tree>, S: set<Node>)
    reads S
  {
    |ns| == |ts| && forall j :: 0 <= j < |ts| ==> Reads(ns[j], ts[j], S)
  }

  lemma HoldsUpdate(ns: seq<Node?>, ts: seq<Tree>, S: set<Node>, i: nat, r: Node, t: Tree)
    requires Holds(ns, ts, S) && i < |ts| && Reads(r, t, S + {r})
    ensures Holds(ns[i := r], ts[i := t], S + {r})
  {
    ReadsAll(ns, ts, S, S + {r});
  }

  lemma SetScalarSkip(ts: seq<Tree>, key: string, val: string, i: nat)
    requires i + 1 < |ts| && ts[i].value != key
    ensures ts[..i] + SetScalar(ts[i..], key, val) == ts[..i + 2] + SetScalar(ts[i + 2..], key, val)
  {
    assert ts[i..][..2] == ts[i..i + 2] && ts[i..][2..] == ts[i + 2..] && ts[..i + 2] == ts[..i] + ts[i..i + 2];
  }

  lemma SetScalarEnd(ts: seq<Tree>, key: string, val: string, i: nat)
    requires i <= |ts| <= i + 1
    ensures ts[..i] + SetScalar(ts[i..], key, val) == ts + [ScalarTree(key), ScalarTree(val)]
  {
    assert ts == ts[..i] + ts[i..];
  }

  lemma SetScalarAt(ts: seq<Tree>, key: string, val: string, i: nat)
    requires i + 1 < |ts| && ts[i].value == key
    requires SetScalar(ts, key, val) == ts[..i] + SetScalar(ts[i..], key, val)
    ensures SetScalar(ts, key, val) == ts[i + 1 := ScalarTree(val)]
  {
    assert ts[i..][2..] == ts[i + 2..] && ts[..i + 1] == ts[..i] + [ts[i]];
  }
}
