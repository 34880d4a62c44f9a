/** Object keys: encoding/json sorts them, a JSONB column keeps them in an order of its own. */
module JsonOrder {
  import opened Json

  /** The order of strings by code point, which is that of their UTF-8 bytes. */
  predicate Before(a: string, b: string) {
    b != "" && (a == "" || a[0] < b[0] || (a[0] == b[0] && Before(a[1..], b[1..])))
  }

  lemma {:induction false} BeforeTotal(a: string, b: string)
    ensures a == b || Before(a, b) || Before(b, a)
    ensures !(Before(a, b) && Before(b, a)) && !Before(a, a)
  {
    if a != "" && b != "" && a[0] == b[0] {
      BeforeTotal(a[1..], b[1..]);
      assert a == [a[0]] + a[1..] && b == [b[0]] + b[1..];
    }
    BeforeSelf(a);
  }

  lemma {:induction false} BeforeSelf(a: string)
    ensures !Before(a, a)
  {
    if a != "" {
      BeforeSelf(a[1..]);
    }
  }

  lemma {:induction false} BeforeTransitive(a: string, b: string, c: string)
    requires Before(a, b) && Before(b, c)
    ensures Before(a, c)
  {
    if a != "" && a[0] == b[0] == c[0] {
      BeforeTransitive(a[1..], b[1..], c[1..]);
    }
  }

  // ---------------------------------------------------------------------------------------
  // Sorting the fields of objects
  // ---------------------------------------------------------------------------------------

  predicate DistinctFields(fields: seq<Field>) {
    forall i, j :: 0 <= i < j < |fields| ==> fields[i].key != fields[j].key
  }

  predicate SortedFields(fields: seq<Field>) {
    forall i, j :: 0 <= i < j < |fields| ==> Before(fields[i].key, fields[j].key)
  }

  function Insert(f: Field, fields: seq<Field>): seq<Field> {
    if fields == [] || Before(f.key, fields[0].key) then [f] + fields
    else [fields[0]] + Insert(f, fields[1..])
  }

  function SortFields(fields: seq<Field>): seq<Field> {
    if fields == [] then [] else Insert(fields[0], SortFields(fields[1..]))
  }

  /** What json.Marshal prints of a value made of maps and slices. */
  function Canon(j: Json): Json
    decreases j, 1
  {
    match j
    case JArray(elems) => JArray(CanonElems(elems))
    case JObject(fields) => JObject(SortFields(CanonFields(fields)))
    case _ => j
  }

  function CanonElems(elems: seq<Json>): (r: seq<Json>)
    ensures |r| == |elems| && forall i :: 0 <= i < |elems| ==> r[i] == Canon(elems[i])
    decreases elems, 0
  {
    if elems == [] then [] else [Canon(elems[0])] + CanonElems(elems[1..])
  }

  function CanonFields(fields: seq<Field>): (r: seq<Field>)
    ensures |r| == |fields|
    ensures forall i :: 0 <= i < |fields| ==> r[i] == Field(fields[i].key, Canon(fields[i].val))
    decreases fields, 0
  {
    if fields == [] then []
    else [Field(fields[0].key, Canon(fields[0].val))] + CanonFields(fields[1..])
  }

  /** Maps have distinct keys at every depth. */
  predicate DistinctDeep(j: Json) {
    match j
    case JArray(elems) => forall i :: 0 <= i < |elems| ==> DistinctDeep(elems[i])
    case JObject(fields) => DistinctFields(fields) && forall i :: 0 <= i < |fields| ==> DistinctDeep(fields[i].val)
    case _ => true
  }

  predicate SortedDeep(j: Json) {
    match j
    case JArray(elems) => forall i :: 0 <= i < |elems| ==> SortedDeep(elems[i])
    case JObject(fields) => SortedFields(fields) && forall i :: 0 <= i < |fields| ==> SortedDeep(fields[i].val)
    case _ => true
  }

  predicate HasKey(fields: seq<Field>, key: string) {
    exists i :: 0 <= i < |fields| && fields[i].key == key
  }

  /** The same value, the fields of its objects in any order at every depth. */
  ghost predicate Permuted(a: Json, b: Json)
    decreases a
  {
    match a
    case JArray(elems) =>
      b.JArray? && |elems| == |b.elems| && forall i :: 0 <= i < |elems| ==> Permuted(elems[i], b.elems[i])
    case JObject(fields) =>
      && b.JObject? && DistinctFields(fields) && DistinctFields(b.fields)
      && (forall key :: HasKey(fields, key) <==> HasKey(b.fields, key))
      && forall i, k :: 0 <= i < |fields| && 0 <= k < |b.fields| && fields[i].key == b.fields[k].key ==>
           Permuted(fields[i].val, b.fields[k].val)
    case _ => a == b
  }

  lemma {:induction false} InsertIn(f: Field, fields: seq<Field>)
    ensures forall g :: g in Insert(f, fields) <==> g == f || g in fields
  {
    if fields != [] && !Before(f.key, fields[0].key) {
      InsertIn(f, fields[1..]);
      assert fields == [fields[0]] + fields[1..];
    }
  }

  lemma {:induction false} InsertSorted(f: Field, fields: seq<Field>)
    requires SortedFields(fields) && forall g :: g in fields ==> g.key != f.key
    ensures SortedFields(Insert(f, fields))
  {
    if fields != [] {
      BeforeTotal(f.key, fields[0].key);
      if Before(f.key, fields[0].key) {
        forall i | 0 < i < |fields| ensures Before(f.key, fields[i].key) {
          BeforeTransitive(f.key, fields[0].key, fields[i].key);
        }
      } else {
        assert fields[0] in fields;
        InsertSorted(f, fields[1..]);
        InsertIn(f, fields[1..]);
        forall g | g in Insert(f, fields[1..]) ensures Before(fields[0].key, g.key) {
        }
      }
    }
  }

  lemma {:induction false} SortIs(fields: seq<Field>)
    requires DistinctFields(fields)
    ensures SortedFields(SortFields(fields))
    ensures forall g :: g in SortFields(fields) <==> g in fields
  {
    if fields != [] {
      SortIs(fields[1..]);
      InsertIn(fields[0], SortFields(fields[1..]));
      InsertSorted(fields[0], SortFields(fields[1..]));
      assert fields == [fields[0]] + fields[1..];
    }
  }

  /** There is one way to sort a set of fields. */
  lemma {:induction false} SortedUnique(a: seq<Field>, b: seq<Field>)
    requires SortedFields(a) && SortedFields(b) && forall f :: f in a <==> f in b
    ensures a == b
  {
    if a == [] {
      FirstIn(b);
    } else {
      assert a[0] in a && a[0] in b;
      assert b[0] in b && b[0] in a;
      BeforeTotal(a[0].key, b[0].key);
      assert a[0] == b[0];
      TailElements(a);
      TailElements(b);
      SortedUnique(a[1..], b[1..]);
      assert a == [a[0]] + a[1..] && b == [b[0]] + b[1..];
    }
  }

  lemma FirstIn(b: seq<Field>)
    ensures b != [] ==> exists f :: f in b
  {
    if b != [] {
      assert b[0] in b;
    }
  }

  lemma TailElements(a: seq<Field>)
    requires a != [] && SortedFields(a)
    ensures forall f :: f in a[1..] <==> f in a && f != a[0]
  {
    BeforeTotal(a[0].key, a[0].key);
    assert a == [a[0]] + a[1..];
  }

  /** Whatever order the fields are kept in, the canonical value is the same. */
  lemma {:induction false} CanonOfPermuted(a: Json, b: Json)
    requires Permuted(a, b)
    ensures Canon(a) == Canon(b)
    decreases a
  {
    match a {
      case JArray(elems) =>
        forall i | 0 <= i < |elems| ensures Canon(elems[i]) == Canon(b.elems[i]) {
          CanonOfPermuted(elems[i], b.elems[i]);
        }
        assert CanonElems(elems) == CanonElems(b.elems);
      case JObject(fields) =>
        var ca, cb := CanonFields(fields), CanonFields(b.fields);
        forall i, k | 0 <= i < |fields| && 0 <= k < |b.fields| && fields[i].key == b.fields[k].key
          ensures ca[i] == cb[k]
        {
          CanonOfPermuted(fields[i].val, b.fields[k].val);
        }
        SameElements(fields, b.fields, ca, cb);
        SortIs(ca);
        SortIs(cb);
        SortedUnique(SortFields(ca), SortFields(cb));
      case _ =>
    }
  }

  lemma SameElements(fs: seq<Field>, gs: seq<Field>, ca: seq<Field>, cb: seq<Field>)
    requires |ca| == |fs| && |cb| == |gs| && forall key :: HasKey(fs, key) <==> HasKey(gs, key)
    requires forall i, k :: 0 <= i < |fs| && 0 <= k < |gs| && fs[i].key == gs[k].key ==> ca[i] == cb[k]
    ensures forall f :: f in ca <==> f in cb
  {
    forall i | 0 <= i < |fs| ensures ca[i] in cb {
      assert HasKey(fs, fs[i].key);
      var k :| 0 <= k < |gs| && gs[k].key == fs[i].key;
      assert ca[i] == cb[k];
    }
    forall k | 0 <= k < |gs| ensures cb[k] in ca {
      assert HasKey(gs, gs[k].key);
      var i :| 0 <= i < |fs| && fs[i].key == gs[k].key;
      assert ca[i] == cb[k];
    }
  }

  /** The canonical value is the given one with its fields sorted at every depth. */
  lemma {:induction false} CanonIsSorted(j: Json)
    requires DistinctDeep(j)
    ensures Permuted(j, Canon(j)) && SortedDeep(Canon(j))
    decreases j
  {
    match j {
      case JArray(elems) =>
        forall i | 0 <= i < |elems| ensures Permuted(elems[i], Canon(elems[i])) && SortedDeep(Canon(elems[i])) {
          CanonIsSorted(elems[i]);
        }
      case JObject(fields) =>
        forall i | 0 <= i < |fields|
          ensures Permuted(fields[i].val, Canon(fields[i].val)) && SortedDeep(Canon(fields[i].val))
        {
          CanonIsSorted(fields[i].val);
        }
        SortIs(CanonFields(fields));
        FieldsPermuted(fields, CanonFields(fields), SortFields(CanonFields(fields)));
      case _ =>
    }
  }

  lemma FieldsPermuted(fields: seq<Field>, cs: seq<Field>, sorted: seq<Field>)
    requires DistinctFields(fields) && |cs| == |fields|
    requires forall i :: 0 <= i < |fields| ==>
               cs[i].key == fields[i].key && Permuted(fields[i].val, cs[i].val) && SortedDeep(cs[i].val)
    requires SortedFields(sorted) && forall g :: g in sorted <==> g in cs
    ensures Permuted(JObject(fields), JObject(sorted)) && SortedDeep(JObject(sorted))
  {
    SortedDistinct(sorted);
    SameKeys(fields, cs, sorted);
    forall k | 0 <= k < |sorted| ensures exists i :: 0 <= i < |cs| && cs[i] == sorted[k] {
      assert sorted[k] in cs;
    }
  }

  lemma SortedDistinct(sorted: seq<Field>)
    requires SortedFields(sorted)
    ensures DistinctFields(sorted)
  {
    forall i, k | 0 <= i < k < |sorted| ensures sorted[i].key != sorted[k].key {
      BeforeTotal(sorted[i].key, sorted[k].key);
    }
  }

  lemma SameKeys(fields: seq<Field>, cs: seq<Field>, sorted: seq<Field>)
    requires |cs| == |fields| && forall i :: 0 <= i < |fields| ==> cs[i].key == fields[i].key
    requires forall g :: g in sorted <==> g in cs
    ensures forall key :: HasKey(fields, key) <==> HasKey(sorted, key)
  {
    forall i | 0 <= i < |cs| ensures HasKey(sorted, cs[i].key) {
      assert cs[i] in sorted;
    }
    forall k | 0 <= k < |sorted| ensures HasKey(fields, sorted[k].key) {
      assert sorted[k] in cs;
    }
  }

  // ---------------------------------------------------------------------------------------
  // Numbers that come back in another form
  // ---------------------------------------------------------------------------------------

  /** The value with every number printed anew. */
  function Reread(number: Number -> Number, j: Json): Json
    decreases j, 1
  {
    match j
    case JNumber(token) => JNumber(number(token))
    case JArray(elems) => JArray(RereadElems(number, elems))
    case JObject(fields) => JObject(RereadFields(number, fields))
    case _ => j
  }

  function RereadElems(number: Number -> Number, elems: seq<Json>): (r: seq<Json>)
    ensures |r| == |elems| && forall i :: 0 <= i < |elems| ==> r[i] == Reread(number, elems[i])
    decreases elems, 0
  {
    if elems == [] then [] else [Reread(number, elems[0])] + RereadElems(number, elems[1..])
  }

  function RereadFields(number: Number -> Number, fields: seq<Field>): (r: seq<Field>)
    ensures |r| == |fields|
    ensures forall i :: 0 <= i < |fields| ==> r[i] == Field(fields[i].key, Reread(number, fields[i].val))
    decreases fields, 0
  {
    if fields == [] then []
    else [Field(fields[0].key, Reread(number, fields[0].val))] + RereadFields(number, fields[1..])
  }

  predicate NumbersKept(number: Number -> Number, j: Json) {
    match j
    case JNumber(token) => number(token) == token
    case JArray(elems) => forall i :: 0 <= i < |elems| ==> NumbersKept(number, elems[i])
    case JObject(fields) => forall i :: 0 <= i < |fields| ==> NumbersKept(number, fields[i].val)
    case _ => true
  }

  lemma {:induction false} RereadIsKept(number: Number -> Number, j: Json)
    ensures Reread(number, j) == j <==> NumbersKept(number, j)
    decreases j
  {
    match j {
      case JArray(elems) =>
        forall i | 0 <= i < |elems| ensures Reread(number, elems[i]) == elems[i] <==> NumbersKept(number, elems[i]) {
          RereadIsKept(number, elems[i]);
        }
        assert RereadElems(number, elems) == elems <==>
               forall i :: 0 <= i < |elems| ==> Reread(number, elems[i]) == elems[i];
      case JObject(fields) =>
        forall i | 0 <= i < |fields|
          ensures Reread(number, fields[i].val) == fields[i].val <==> NumbersKept(number, fields[i].val)
        {
          RereadIsKept(number, fields[i].val);
        }
        assert RereadFields(number, fields) == fields <==>
               forall i :: 0 <= i < |fields| ==> Reread(number, fields[i].val) == fields[i].val;
      case _ =>
    }
  }

  lemma {:induction false} RereadPermuted(number: Number -> Number, a: Json, b: Json)
    requires Permuted(a, b)
    ensures Permuted(Reread(number, a), Reread(number, b))
    decreases a
  {
    match a {
      case JArray(elems) =>
        forall i | 0 <= i < |elems| ensures Permuted(Reread(number, elems[i]), Reread(number, b.elems[i])) {
          RereadPermuted(number, elems[i], b.elems[i]);
        }
      case JObject(fields) =>
        forall i, k | 0 <= i < |fields| && 0 <= k < |b.fields| && fields[i].key == b.fields[k].key
          ensures Permuted(Reread(number, fields[i].val), Reread(number, b.fields[k].val))
        {
          RereadPermuted(number, fields[i].val, b.fields[k].val);
        }
        RereadKeys(number, fields);
        RereadKeys(number, b.fields);
      case _ =>
    }
  }

  lemma RereadKeys(number: Number -> Number, fields: seq<Field>)
    ensures forall key :: HasKey(RereadFields(number, fields), key) <==> HasKey(fields, key)
  {
    var r := RereadFields(number, fields);
    forall key | HasKey(fields, key) ensures HasKey(r, key) {
      var i :| 0 <= i < |fields| && fields[i].key == key;
      assert r[i].key == key;
    }
    forall key | HasKey(r, key) ensures HasKey(fields, key) {
      var i :| 0 <= i < |r| && r[i].key == key;
      assert fields[i].key == key;
    }
  }

  lemma {:induction false} RereadInsert(number: Number -> Number, f: Field, fields: seq<Field>)
    ensures RereadFields(number, Insert(f, fields)) ==
            Insert(Field(f.key, Reread(number, f.val)), RereadFields(number, fields))
  {
    if fields != [] && !Before(f.key, fields[0].key) {
      RereadInsert(number, f, fields[1..]);
      assert Insert(f, fields)[1..] == Insert(f, fields[1..]);
    } else {
      assert Insert(f, fields)[1..] == fields;
    }
  }

  lemma {:induction false} RereadSort(number: Number -> Number, fields: seq<Field>)
    ensures RereadFields(number, SortFields(fields)) == SortFields(RereadFields(number, fields))
  {
    if fields != [] {
      RereadSort(number, fields[1..]);
      RereadInsert(number, fields[0], SortFields(fields[1..]));
    }
  }

  /** Numbers do not matter to the order of keys. */
  lemma {:induction false} RereadCanon(number: Number -> Number, j: Json)
    ensures Canon(Reread(number, j)) == Reread(number, Canon(j))
    decreases j
  {
    match j {
      case JArray(elems) =>
        forall i | 0 <= i < |elems| ensures Canon(Reread(number, elems[i])) == Reread(number, Canon(elems[i])) {
          RereadCanon(number, elems[i]);
        }
        assert CanonElems(RereadElems(number, elems)) == RereadElems(number, CanonElems(elems));
      case JObject(fields) =>
        forall i | 0 <= i < |fields|
          ensures Canon(Reread(number, fields[i].val)) == Reread(number, Canon(fields[i].val))
        {
          RereadCanon(number, fields[i].val);
        }
        assert CanonFields(RereadFields(number, fields)) == RereadFields(number, CanonFields(fields));
        RereadSort(number, CanonFields(fields));
      case _ =>
    }
  }
}
