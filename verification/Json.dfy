/** JSON as encoding/json writes it: quoting, sorted object keys, and unique readability. */
module Json {

  predicate NumberChar(c: char) {
    '0' <= c <= '9' || c == '-' || c == '+' || c == '.' || c == 'e' || c == 'E'
  }

  predicate NumberToken(t: string) {
    t != "" && ('0' <= t[0] <= '9' || t[0] == '-') && forall c :: c in t ==> NumberChar(c)
  }

  /** The text of a number, taken as it stands. */
  type Number = t: string | NumberToken(t) witness "0"

  datatype Json =
    | JNull
    | JBool(b: bool)
    | JNumber(token: Number)
    | JString(s: string)
    | JArray(elems: seq<Json>)
    | JObject(fields: seq<Field>)

  datatype Field = Field(key: string, val: Json)

  // ---------------------------------------------------------------------------------------
  // Printing
  // ---------------------------------------------------------------------------------------

  function HexDigit(n: nat): char
    requires n < 16
  {
    if n < 10 then '0' + n as char else 'a' + (n - 10) as char
  }

  const BACKSPACE: char := 8 as char
  const FORM_FEED: char := 12 as char

  predicate Hexed(c: char) {
    c < ' ' || c == '<' || c == '>' || c == '&'
  }

  /** A character inside a quoted string, HTML-sensitive ones escaped. */
  function Escape(c: char): string {
    if c == '"' then "\\\""
    else if c == '\\' then "\\\\"
    else if c == BACKSPACE then "\\b"
    else if c == FORM_FEED then "\\f"
    else if c == '\n' then "\\n"
    else if c == '\r' then "\\r"
    else if c == '\t' then "\\t"
    else if Hexed(c) then ['\\', 'u', '0', '0', HexDigit(c as int / 16), HexDigit(c as int % 16)]
    else if c == '\U{2028}' then "\\u2028"
    else if c == '\U{2029}' then "\\u2029"
    else [c]
  }

  function EscapeAll(s: string): string {
    if s == "" then "" else Escape(s[0]) + EscapeAll(s[1..])
  }

  function Quote(s: string): string {
    "\"" + (EscapeAll(s) + "\"")
  }

  /** The text of a value, its object fields in the order given. */
  function Print(j: Json): string
    decreases j, 1
  {
    match j
    case JNull => "null"
    case JBool(b) => if b then "true" else "false"
    case JNumber(token) => token
    case JString(s) => Quote(s)
    case JArray(elems) => "[" + (PrintElems(elems, true) + "]")
    case JObject(fields) => "{" + (PrintFields(fields, true) + "}")
  }

  function Comma(first: bool): string {
    if first then "" else ","
  }

  function PrintElems(elems: seq<Json>, first: bool): string
    decreases elems, 0
  {
    if elems == [] then ""
    else Comma(first) + (Print(elems[0]) + PrintElems(elems[1..], false))
  }

  function PrintFields(fields: seq<Field>, first: bool): string
    decreases fields, 0
  {
    if fields == [] then ""
    else Comma(first) + (Quote(fields[0].key) + (":" + (Print(fields[0].val) + PrintFields(fields[1..], false))))
  }

  // ---------------------------------------------------------------------------------------
  // Unique readability: a printed value ends where it ends, whatever follows.
  // ---------------------------------------------------------------------------------------

  /** What may follow a value. */
  predicate Delimited(x: string) {
    x == "" || x[0] == ',' || x[0] == ']' || x[0] == '}'
  }

  /** Reads back one escaped character. */
  function Unescape(t: string): (char, string)
    requires t != ""
  {
    if t[0] != '\\' || |t| < 2 then (t[0], t[1..])
    else if t[1] == '"' then ('"', t[2..])
    else if t[1] == '\\' then ('\\', t[2..])
    else if t[1] == 'b' then (BACKSPACE, t[2..])
    else if t[1] == 'f' then (FORM_FEED, t[2..])
    else if t[1] == 'n' then ('\n', t[2..])
    else if t[1] == 'r' then ('\r', t[2..])
    else if t[1] == 't' then ('\t', t[2..])
    else if |t| < 6 then (t[0], t[1..])
    else if t[2] == '2' then (if t[5] == '8' then '\U{2028}' else '\U{2029}', t[6..])
    else ((16 * HexValue(t[4]) + HexValue(t[5])) as char, t[6..])
  }

  function HexValue(c: char): (n: nat)
    ensures n < 16
  {
    if '0' <= c <= '9' then (c - '0') as nat
    else if 'a' <= c <= 'f' then (c - 'a') as nat + 10
    else 0
  }

  lemma UnescapeEscape(c: char, x: string)
    ensures Escape(c) != "" && Escape(c)[0] != '"'
    ensures Unescape(Escape(c) + x) == (c, x)
  {
    var t := Escape(c) + x;
    if |Escape(c)| == 6 && c != '\U{2028}' && c != '\U{2029}' {
      assert Hexed(c);
      assert HexValue(HexDigit(c as int / 16)) == c as int / 16;
      assert HexValue(HexDigit(c as int % 16)) == c as int % 16;
      assert t[4] == HexDigit(c as int / 16) && t[5] == HexDigit(c as int % 16);
      assert t[6..] == x;
    } else if |Escape(c)| == 6 {
      assert t[6..] == x;
    } else if |Escape(c)| == 2 {
      assert t[2..] == x;
    } else {
      assert t[1..] == x;
    }
  }

  lemma EscapedFirst(c: char, d: char, x: string, y: string)
    requires Escape(c) + x == Escape(d) + y
    ensures c == d && x == y
  {
    UnescapeEscape(c, x);
    UnescapeEscape(d, y);
  }

  lemma NotAQuote(c: char, x: string, y: string)
    ensures Escape(c) + x != "\"" + y
  {
    UnescapeEscape(c, x);
    assert (Escape(c) + x)[0] != '"' && ("\"" + y)[0] == '"';
  }

  lemma {:induction false} EscapedEnds(a: string, b: string, x: string, y: string)
    requires EscapeAll(a) + ("\"" + x) == EscapeAll(b) + ("\"" + y)
    ensures a == b && x == y
    decreases |a|
  {
    SplitFirst(a, "\"" + x);
    SplitFirst(b, "\"" + y);
    if a != "" && b != "" {
      EscapedFirst(a[0], b[0], EscapeAll(a[1..]) + ("\"" + x), EscapeAll(b[1..]) + ("\"" + y));
      EscapedEnds(a[1..], b[1..], x, y);
      assert a == [a[0]] + a[1..] && b == [b[0]] + b[1..];
    } else if a != "" {
      NotAQuote(a[0], EscapeAll(a[1..]) + ("\"" + x), y);
    } else if b != "" {
      NotAQuote(b[0], EscapeAll(b[1..]) + ("\"" + y), x);
    } else {
      assert ("\"" + x)[1..] == x && ("\"" + y)[1..] == y;
    }
  }

  lemma SplitFirst(a: string, t: string)
    ensures a == "" ==> EscapeAll(a) + t == t
    ensures a != "" ==> EscapeAll(a) + t == Escape(a[0]) + (EscapeAll(a[1..]) + t)
  {
  }

  lemma QuoteTail(a: string, x: string)
    ensures Quote(a) + x == "\"" + (EscapeAll(a) + ("\"" + x))
    ensures (Quote(a) + x)[0] == '"' && (Quote(a) + x)[1..] == EscapeAll(a) + ("\"" + x)
  {
  }

  /** A quoted string ends at its closing quote. */
  lemma QuoteEnds(a: string, b: string, x: string, y: string)
    requires Quote(a) + x == Quote(b) + y
    ensures a == b && x == y
  {
    QuoteTail(a, x);
    QuoteTail(b, y);
    EscapedEnds(a, b, x, y);
  }

  /** The first character of a printed value tells its kind. */
  predicate Leads(j: Json, c: char) {
    match j
    case JNull => c == 'n'
    case JBool(b) => c == if b then 't' else 'f'
    case JNumber(_) => '0' <= c <= '9' || c == '-'
    case JString(_) => c == '"'
    case JArray(_) => c == '['
    case JObject(_) => c == '{'
  }

  lemma PrintLeads(j: Json, x: string)
    ensures Print(j) != "" && Leads(j, Print(j)[0]) && (Print(j) + x)[0] == Print(j)[0]
  {
  }

  function NumberSpan(t: string): nat {
    if t != "" && NumberChar(t[0]) then 1 + NumberSpan(t[1..]) else 0
  }

  lemma {:induction false} SpanOf(a: string, x: string)
    requires (forall c :: c in a ==> NumberChar(c)) && Delimited(x)
    ensures NumberSpan(a + x) == |a|
  {
    if a == "" {
      assert a + x == x;
    } else {
      SpanOf(a[1..], x);
      assert (a + x)[1..] == a[1..] + x;
    }
  }

  lemma TokenEnds(a: string, b: string, x: string, y: string)
    requires NumberToken(a) && NumberToken(b) && Delimited(x) && Delimited(y) && a + x == b + y
    ensures a == b && x == y
  {
    SpanOf(a, x);
    SpanOf(b, y);
    WordEnds(a, b, x, y);
  }

  /** A printed value ends where it ends: no value is a proper beginning of another. */
  lemma {:induction false} PrintEnds(a: Json, b: Json, x: string, y: string)
    requires Delimited(x) && Delimited(y)
    requires Print(a) + x == Print(b) + y
    ensures a == b && x == y
    decreases a, 1
  {
    PrintLeads(a, x);
    PrintLeads(b, y);
    match a {
      case JNull =>
        WordEnds("null", "null", x, y);
      case JBool(c) =>
        WordEnds(Print(a), Print(b), x, y);
      case JNumber(token) =>
        TokenEnds(token, b.token, x, y);
      case JString(t) =>
        QuoteEnds(t, b.s, x, y);
      case JArray(elems) =>
        Bracketed("[", PrintElems(elems, true), "]", x);
        Bracketed("[", PrintElems(b.elems, true), "]", y);
        ElemsEnd(elems, b.elems, true, x, y);
      case JObject(fields) =>
        Bracketed("{", PrintFields(fields, true), "}", x);
        Bracketed("{", PrintFields(b.fields, true), "}", y);
        FieldsEnd(fields, b.fields, true, x, y);
    }
  }

  lemma WordEnds(a: string, b: string, x: string, y: string)
    requires |a| == |b| && a + x == b + y
    ensures a == b && x == y
  {
    assert (a + x)[..|a|] == a && (b + y)[..|b|] == b;
    assert (a + x)[|a|..] == x && (b + y)[|b|..] == y;
  }

  lemma Bracketed(open: string, body: string, close: string, x: string)
    requires |open| == 1
    ensures ((open + (body + close)) + x)[1..] == body + (close + x)
  {
  }

  lemma {:induction false} ElemsEnd(a: seq<Json>, b: seq<Json>, first: bool, x: string, y: string)
    requires PrintElems(a, first) + ("]" + x) == PrintElems(b, first) + ("]" + y)
    ensures a == b && x == y
    decreases a, 0
  {
    ElemsTail(a, first, x);
    ElemsTail(b, first, y);
    if a != [] && b != [] {
      var restA, restB := PrintElems(a[1..], false) + ("]" + x), PrintElems(b[1..], false) + ("]" + y);
      WordEnds(Comma(first), Comma(first), Print(a[0]) + restA, Print(b[0]) + restB);
      ElemsTail(a[1..], false, x);
      ElemsTail(b[1..], false, y);
      PrintEnds(a[0], b[0], restA, restB);
      ElemsEnd(a[1..], b[1..], false, x, y);
      assert a == [a[0]] + a[1..] && b == [b[0]] + b[1..];
    } else if a == [] && b == [] {
      WordEnds("]", "]", x, y);
    }
  }

  lemma ElemsTail(a: seq<Json>, first: bool, x: string)
    ensures a == [] ==> PrintElems(a, first) + ("]" + x) == "]" + x
    ensures a != [] ==>
      PrintElems(a, first) + ("]" + x) == Comma(first) + (Print(a[0]) + (PrintElems(a[1..], false) + ("]" + x)))
    ensures var t := PrintElems(a, first) + ("]" + x);
            t != "" && (a == [] <==> t[0] == ']') && (!first ==> Delimited(t))
  {
    if a != [] {
      PrintLeads(a[0], PrintElems(a[1..], false) + ("]" + x));
      ElemAssoc(Comma(first), Print(a[0]), PrintElems(a[1..], false), "]" + x);
    }
  }

  lemma ElemAssoc(c: string, v: string, r: string, t: string)
    ensures (c + (v + r)) + t == c + (v + (r + t))
  {
  }

  lemma {:induction false} FieldsEnd(a: seq<Field>, b: seq<Field>, first: bool, x: string, y: string)
    requires PrintFields(a, first) + ("}" + x) == PrintFields(b, first) + ("}" + y)
    ensures a == b && x == y
    decreases a, 0
  {
    FieldsTail(a, first, x);
    FieldsTail(b, first, y);
    if a != [] && b != [] {
      WordEnds(Comma(first), Comma(first), FieldText(a, x), FieldText(b, y));
      FieldKeyEnds(a, b, x, y);
      FieldsTail(a[1..], false, x);
      FieldsTail(b[1..], false, y);
      PrintEnds(a[0].val, b[0].val, PrintFields(a[1..], false) + ("}" + x), PrintFields(b[1..], false) + ("}" + y));
      FieldsEnd(a[1..], b[1..], false, x, y);
      assert a[0] == b[0] && a == [a[0]] + a[1..] && b == [b[0]] + b[1..];
    } else if a == [] && b == [] {
      WordEnds("}", "}", x, y);
    }
  }

  /** A field and what follows it up to the end of the object. */
  function FieldText(a: seq<Field>, x: string): string
    requires a != []
  {
    Quote(a[0].key) + (":" + (Print(a[0].val) + (PrintFields(a[1..], false) + ("}" + x))))
  }

  lemma FieldsTail(a: seq<Field>, first: bool, x: string)
    ensures a == [] ==> PrintFields(a, first) + ("}" + x) == "}" + x
    ensures a != [] ==> PrintFields(a, first) + ("}" + x) == Comma(first) + FieldText(a, x)
    ensures var t := PrintFields(a, first) + ("}" + x);
            t != "" && (a == [] <==> t[0] == '}') && (!first ==> Delimited(t))
  {
    if a != [] {
      var rest := PrintFields(a[1..], false) + ("}" + x);
      QuoteTail(a[0].key, ":" + (Print(a[0].val) + rest));
      FieldAssoc(Comma(first), Quote(a[0].key), Print(a[0].val), PrintFields(a[1..], false), "}" + x);
    }
  }

  lemma FieldKeyEnds(a: seq<Field>, b: seq<Field>, x: string, y: string)
    requires a != [] && b != [] && FieldText(a, x) == FieldText(b, y)
    ensures a[0].key == b[0].key
    ensures Print(a[0].val) + (PrintFields(a[1..], false) + ("}" + x)) ==
            Print(b[0].val) + (PrintFields(b[1..], false) + ("}" + y))
  {
    var restA := Print(a[0].val) + (PrintFields(a[1..], false) + ("}" + x));
    var restB := Print(b[0].val) + (PrintFields(b[1..], false) + ("}" + y));
    QuoteEnds(a[0].key, b[0].key, ":" + restA, ":" + restB);
    WordEnds(":", ":", restA, restB);
  }

  lemma FieldAssoc(c: string, k: string, v: string, r: string, t: string)
    ensures (c + (k + (":" + (v + r)))) + t == c + (k + (":" + (v + (r + t))))
  {
  }

  /** Different values print differently. */
  lemma PrintInjective(a: Json, b: Json)
    requires Print(a) == Print(b)
    ensures a == b
  {
    assert Print(a) + "" == Print(a) && Print(b) + "" == Print(b);
    PrintEnds(a, b, "", "");
  }
}
