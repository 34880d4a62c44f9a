/** Moving a signed assertion's ds:Signature to the place right after saml:Issuer. */
module SamlSignature {

  datatype Tag = Signature | Issuer | OtherTag(name: string)

  /** A child of an XML element: an element with its tag, or other content. */
  datatype Token = Element(tag: Tag, body: string) | Other(text: string)

  predicate Tagged(t: Token, tag: Tag) {
    t.Element? && t.tag == tag
  }

  /** The first element with the tag, or the length when there is none. */
  function First(ts: seq<Token>, tag: Tag): (i: nat)
    ensures i <= |ts| && (i < |ts| ==> Tagged(ts[i], tag)) && forall k :: 0 <= k < i ==> !Tagged(ts[k], tag)
  {
    if ts == [] || Tagged(ts[0], tag) then 0 else 1 + First(ts[1..], tag)
  }

  function Without(ts: seq<Token>, i: nat): seq<Token>
    requires i < |ts|
  {
    ts[..i] + ts[i + 1..]
  }

  function InsertAt(ts: seq<Token>, i: nat, t: Token): seq<Token>
    requires i <= |ts|
  {
    ts[..i] + [t] + ts[i..]
  }

  lemma InsertIs(ts: seq<Token>, i: nat, t: Token)
    requires i <= |ts|
    ensures |InsertAt(ts, i, t)| == |ts| + 1 && InsertAt(ts, i, t)[i] == t && Without(InsertAt(ts, i, t), i) == ts
    ensures forall k :: 0 <= k < i ==> InsertAt(ts, i, t)[k] == ts[k]
  {
    assert InsertAt(ts, i, t)[..i] == ts[..i] && InsertAt(ts, i, t)[i + 1..] == ts[i..];
  }

  lemma WithoutIs(ts: seq<Token>, i: nat)
    requires i < |ts|
    ensures |Without(ts, i)| == |ts| - 1 && InsertAt(Without(ts, i), i, ts[i]) == ts
    ensures forall k :: 0 <= k < |ts| - 1 ==> Without(ts, i)[k] == if k < i then ts[k] else ts[k + 1]
    ensures multiset(ts) == multiset(Without(ts, i)) + multiset{ts[i]}
  {
    assert ts == ts[..i] + [ts[i]] + ts[i + 1..];
  }

  predicate HasBoth(ts: seq<Token>) {
    First(ts, Signature) < |ts| && First(ts, Issuer) < |ts|
  }

  /** The first signature taken out and put back behind the first issuer. */
  function Moved(ts: seq<Token>): seq<Token> {
    if !HasBoth(ts) then ts
    else
      var rest := Without(ts, First(ts, Signature));
      var k := First(rest, Issuer);
      if k == |rest| then ts else InsertAt(rest, k + 1, ts[First(ts, Signature)])
  }

  class Node {
    var child: seq<Token>

    constructor (child: seq<Token>)
      ensures this.child == child
    {
      this.child := child;
    }

    method MoveSignatureAfterIssuer()
      modifies this
      ensures child == Moved(old(child))
    {
      var sigIdx, issuerIdx := Find();
      if sigIdx == |child| || issuerIdx == |child| {
        return;
      }
      ghost var was := child;
      FirstWithout(was);
      var target := issuerIdx + 1;
      if sigIdx == target {
        InPlace(was);
        return;
      }
      var sig := child[sigIdx];
      child := child[..sigIdx] + child[sigIdx + 1..];
      if target > sigIdx {
        target := target - 1;
      }
      var tail := [sig] + child[target..];
      Splice(child, target, sig);
      child := child[..target] + tail;
    }

    method Find() returns (sigIdx: nat, issuerIdx: nat)
      ensures sigIdx == First(child, Signature) && issuerIdx == First(child, Issuer)
    {
      var i := 0;
      sigIdx, issuerIdx := |child|, |child|;
      while i < |child|
        invariant 0 <= i <= |child|
        invariant FoundBy(child, Signature, i, sigIdx) && FoundBy(child, Issuer, i, issuerIdx)
      {
        if Tagged(child[i], Signature) {
          if sigIdx == |child| {
            sigIdx := i;
          }
        } else if Tagged(child[i], Issuer) {
          if issuerIdx == |child| {
            issuerIdx := i;
          }
        }
        i := i + 1;
      }
      FoundIs(child, Signature, sigIdx);
      FoundIs(child, Issuer, issuerIdx);
    }
  }

  /** The search so far: the first element with the tag before position i, or the length. */
  predicate FoundBy(ts: seq<Token>, tag: Tag, i: nat, found: nat)
    requires i <= |ts|
  {
    if found < |ts| then
      found < i && Tagged(ts[found], tag) && forall k :: 0 <= k < found ==> !Tagged(ts[k], tag)
    else
      found == |ts| && forall k :: 0 <= k < i ==> !Tagged(ts[k], tag)
  }

  lemma FoundIs(ts: seq<Token>, tag: Tag, found: nat)
    requires FoundBy(ts, tag, |ts|, found)
    ensures found == First(ts, tag)
  {
    if found < |ts| {
      FirstIs(ts, tag, found);
    }
  }

  lemma Splice(ts: seq<Token>, i: nat, t: Token)
    requires i <= |ts|
    ensures ts[..i] + ([t] + ts[i..]) == InsertAt(ts, i, t)
  {
  }

  lemma FirstIs(ts: seq<Token>, tag: Tag, i: nat)
    requires i < |ts| && Tagged(ts[i], tag) && forall k :: 0 <= k < i ==> !Tagged(ts[k], tag)
    ensures First(ts, tag) == i
  {
  }

  /** Where the issuer is once the signature is taken out. */
  lemma FirstWithout(ts: seq<Token>)
    requires HasBoth(ts)
    ensures var s, i := First(ts, Signature), First(ts, Issuer);
            s != i && First(Without(ts, s), Issuer) == (if i < s then i else i - 1)
  {
    var s, i := First(ts, Signature), First(ts, Issuer);
    assert ts[s].tag == Signature;
    FirstIs(Without(ts, s), Issuer, if i < s then i else i - 1);
  }

  lemma InPlace(ts: seq<Token>)
    requires HasBoth(ts) && First(ts, Signature) == First(ts, Issuer) + 1
    ensures Moved(ts) == ts
  {
    FirstWithout(ts);
    WithoutIs(ts, First(ts, Signature));
  }

  /** The first signature ends right behind the first issuer; all other children keep their order, none is lost. */
  lemma MovedPlaces(ts: seq<Token>)
    requires HasBoth(ts)
    ensures var s, i := First(ts, Signature), First(Moved(ts), Issuer);
            && |Moved(ts)| == |ts| && i + 1 < |ts| && Moved(ts)[i + 1] == ts[s]
            && i == First(Without(ts, s), Issuer) && Moved(ts) == InsertAt(Without(ts, s), i + 1, ts[s])
            && Without(Moved(ts), i + 1) == Without(ts, s)
            && multiset(Moved(ts)) == multiset(ts)
  {
    var s := First(ts, Signature);
    var rest := Without(ts, s);
    var k := First(rest, Issuer);
    FirstWithout(ts);
    WithoutIs(ts, s);
    InsertIs(rest, k + 1, ts[s]);
    WithoutIs(Moved(ts), k + 1);
    FirstIs(Moved(ts), Issuer, k);
  }

  /** The position of the second signature, or the length. */
  function Second(ts: seq<Token>): nat {
    var s := First(ts, Signature);
    if s == |ts| then s else s + 1 + First(ts[s + 1..], Signature)
  }

  /** Doing it again changes nothing, if and only if at most one signature came before the issuer. */
  lemma AgainIff(ts: seq<Token>)
    requires HasBoth(ts)
    ensures Moved(Moved(ts)) == Moved(ts) <==> Second(ts) > First(ts, Issuer)
  {
    if Second(ts) > First(ts, Issuer) {
      AgainSame(ts);
    } else {
      AgainDiffers(ts);
    }
  }

  lemma AgainSame(ts: seq<Token>)
    requires HasBoth(ts) && Second(ts) > First(ts, Issuer)
    ensures Moved(Moved(ts)) == Moved(ts)
  {
    var s, m := First(ts, Signature), Moved(ts);
    MovedPlaces(ts);
    FirstWithout(ts);
    var k := First(m, Issuer);
    InsertIs(Without(ts, s), k + 1, ts[s]);
    forall j | 0 <= j < k + 1 ensures !Tagged(m[j], Signature) {
      NoSignatureBefore(ts, j);
    }
    FirstIs(m, Signature, k + 1);
    InPlace(m);
  }

  lemma NoSignatureBefore(ts: seq<Token>, j: nat)
    requires HasBoth(ts) && Second(ts) > First(ts, Issuer)
    requires j <= (if First(ts, Issuer) < First(ts, Signature) then First(ts, Issuer) else First(ts, Issuer) - 1)
    ensures j < |Without(ts, First(ts, Signature))| && !Tagged(Without(ts, First(ts, Signature))[j], Signature)
  {
    var s := First(ts, Signature);
    WithoutIs(ts, s);
    if j >= s {
      assert ts[j + 1] == ts[s + 1..][j - s];
    }
  }

  /** With two signatures before the issuer the second call moves the other one, and the issuer moves up again. */
  lemma AgainDiffers(ts: seq<Token>)
    requires HasBoth(ts) && Second(ts) <= First(ts, Issuer)
    ensures Moved(Moved(ts)) != Moved(ts)
  {
    var s, t, m := First(ts, Signature), Second(ts), Moved(ts);
    SecondBefore(ts);
    MovedPlaces(ts);
    FirstWithout(ts);
    var k := First(m, Issuer);
    InsertIs(Without(ts, s), k + 1, ts[s]);
    WithoutIs(ts, s);
    assert m[t - 1] == Without(ts, s)[t - 1] == ts[t];
    assert First(m, Signature) <= t - 1;
    MovedPlaces(m);
    FirstWithout(m);
  }

  lemma SecondBefore(ts: seq<Token>)
    requires HasBoth(ts) && Second(ts) <= First(ts, Issuer)
    ensures First(ts, Signature) < Second(ts) < First(ts, Issuer) && Tagged(ts[Second(ts)], Signature)
  {
    var s, i := First(ts, Signature), First(ts, Issuer);
    var rest := ts[s + 1..];
    var j := First(rest, Signature);
    assert j < |rest| && rest[j] == ts[s + 1 + j] && Tagged(rest[j], Signature);
    assert Tagged(ts[i], Issuer) && !Tagged(ts[i], Signature);
  }
}
