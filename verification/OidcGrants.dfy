/** The refresh tokens of the OIDC provider: families, rotation, reuse, introspection; calls one at a time. */
module OidcGrants {
  import opened Wrappers

  type Id = nat

  datatype Client = Client(
    tenant: Id, confidential: bool, secretHash: Option<string>, redirectUris: seq<string>,
    grantTypes: seq<string>, scopes: seq<string>)

  datatype AuthCode = AuthCode(
    client: string, user: Id, tenant: Id, redirectUri: string, scopes: seq<string>,
    challenge: string, challengeMethod: string, expires: int, used: bool)

  /** What a family of refresh tokens shares. */
  datatype Grant = Grant(client: string, user: Id, tenant: Id, scopes: seq<string>)

  datatype Token = Token(
    id: Id, grant: Grant, resource: Option<string>, expires: int, used: bool, revoked: bool, replacedBy: Option<Id>)

  /** How a token came about: the family it belongs to, and the resource its caller supplied, possibly empty. */
  datatype Origin = Origin(family: nat, supplied: string)

  /** The tables, and beside the token table the origin of each of its rows. */
  datatype State = State(
    clients: map<string, Client>, codes: map<string, AuthCode>, tokens: seq<Token>, origins: seq<Origin>)

  /** Password verification of a client secret and the S256 hash of a code verifier. */
  datatype Env = Env(verify: (string, string) -> bool, s256: string -> string)

  datatype Action =
    | SetClient(client: string, row: Client)
    | Authorize(user: Id, client: string, redirectUri: string, wanted: seq<string>, challenge: string,
                challengeMethod: string, code: string, now: int)
    | ExchangeCode(client: string, secret: string, code: string, redirectUri: string, verifier: string,
                   resource: string, now: int, newToken: Id, expires: int)
    | Issue(grant: Grant, resource: string, newToken: Id, expires: int)
    | RefreshToken(client: string, secret: string, token: Id, resource: string, now: int, newToken: Id, expires: int)
    | RevokeToken(client: string, secret: string, token: Id, hint: string)
    | RevokeGrant(tenant: Id, token: Id)

  datatype Refusal =
    | UnknownClient | InvalidSecret | RedirectNotRegistered | ScopeNotPermitted | InvalidCode | CodeUsed | CodeExpired
    | RedirectMismatch | VerifierRequired | UnsupportedMethod | InvalidVerifier | UnknownToken | ClientMismatch
    | TokenRevoked | TokenReuse | TokenExpired | NotFound

  datatype Outcome =
    | Done
    | Tokens(grant: Grant, resource: string, refresh: Option<Id>)
    | Refused(why: Refusal)

  // ---------------------------------------------------------------------------------------
  // Rows
  // ---------------------------------------------------------------------------------------

  function IndexOf(tokens: seq<Token>, id: Id): (k: nat)
    ensures k <= |tokens|
    ensures k < |tokens| ==> tokens[k].id == id
    ensures forall i :: 0 <= i < k ==> tokens[i].id != id
  {
    if tokens == [] || tokens[0].id == id then 0 else 1 + IndexOf(tokens[1..], id)
  }

  predicate HasToken(s: State, id: Id) {
    IndexOf(s.tokens, id) < |s.tokens|
  }

  function Row(s: State, id: Id): Token
    requires HasToken(s, id)
  {
    s.tokens[IndexOf(s.tokens, id)]
  }

  function Authenticate(env: Env, clients: map<string, Client>, client: string, secret: string): Option<Refusal> {
    if client !in clients then Some(UnknownClient)
    else if clients[client].confidential
         && (clients[client].secretHash.None? || !env.verify(clients[client].secretHash.value, secret)) then
      Some(InvalidSecret)
    else None
  }

  function Bound(resource: string): Option<string> {
    if resource == "" then None else Some(resource)
  }

  /** A row for a new grant, which starts a family of its own. */
  function Issued(s: State, grant: Grant, resource: string, id: Id, expires: int): State {
    s.(tokens := s.tokens + [Token(id, grant, Bound(resource), expires, false, false, None)],
       origins := s.origins + [Origin(|s.tokens|, resource)])
  }

  /** The resource a rotation binds: the one supplied, or else the one bound before. */
  function Carried(supplied: string, before: Option<string>): Option<string> {
    Bound(if supplied == "" && before.Some? then before.value else supplied)
  }

  function Rotated(s: State, k: nat, resource: string, id: Id, expires: int): State
    requires k < |s.tokens| && k < |s.origins|
  {
    var row := s.tokens[k];
    s.(tokens := s.tokens[k := row.(used := true, replacedBy := Some(id))]
         + [Token(id, row.grant, Carried(resource, row.resource), expires, false, false, None)],
       origins := s.origins + [Origin(s.origins[k].family, resource)])
  }

  function RevokeWhere(tokens: seq<Token>, which: Token -> bool): (r: seq<Token>)
    ensures |r| == |tokens|
    ensures forall i :: 0 <= i < |tokens| ==>
            r[i] == if which(tokens[i]) then tokens[i].(revoked := true) else tokens[i]
  {
    seq(|tokens|, i requires 0 <= i < |tokens| => if which(tokens[i]) then tokens[i].(revoked := true) else tokens[i])
  }

  // ---------------------------------------------------------------------------------------
  // Calls
  // ---------------------------------------------------------------------------------------

  function AuthorizeChecks(s: State, a: Action): Option<Refusal>
    requires a.Authorize?
  {
    if a.client !in s.clients then Some(UnknownClient)
    else if a.redirectUri !in s.clients[a.client].redirectUris then Some(RedirectNotRegistered)
    else if exists i :: 0 <= i < |a.wanted| && a.wanted[i] !in s.clients[a.client].scopes then Some(ScopeNotPermitted)
    else None
  }

  function ExchangeChecks(env: Env, s: State, a: Action): Option<Refusal>
    requires a.ExchangeCode?
  {
    var auth := Authenticate(env, s.clients, a.client, a.secret);
    if auth.Some? then auth
    else if a.code !in s.codes || s.codes[a.code].client != a.client then Some(InvalidCode)
    else
      var code := s.codes[a.code];
      if code.used then Some(CodeUsed)
      else if a.now > code.expires then Some(CodeExpired)
      else if code.redirectUri != a.redirectUri then Some(RedirectMismatch)
      else if code.challenge == "" then None
      else if a.verifier == "" then Some(VerifierRequired)
      else if code.challengeMethod != "S256" then Some(UnsupportedMethod)
      else if env.s256(a.verifier) != code.challenge then Some(InvalidVerifier)
      else None
  }

  /** The checks of RefreshToken in their order: reuse comes before expiry. */
  function RefreshChecks(env: Env, s: State, client: string, secret: string, token: Id, now: int): Option<Refusal> {
    var auth := Authenticate(env, s.clients, client, secret);
    if auth.Some? then auth
    else if !HasToken(s, token) then Some(UnknownToken)
    else
      var row := Row(s, token);
      if row.grant.client != client then Some(ClientMismatch)
      else if row.revoked then Some(TokenRevoked)
      else if row.used then Some(TokenReuse)
      else if now > row.expires then Some(TokenExpired)
      else None
  }

  predicate SameOwner(a: Grant, b: Grant) {
    a.client == b.client && a.user == b.user
  }

  const CODE_LIFETIME: int := 600

  /** New codes and tokens are random, hence new. */
  predicate Fresh(s: State, a: Action) {
    && (a.Authorize? ==> a.code !in s.codes)
    && (a.ExchangeCode? || a.Issue? || a.RefreshToken? ==> !HasToken(s, a.newToken))
  }

  function Step(env: Env, s: State, a: Action): (State, Outcome)
    requires Fresh(s, a) && |s.origins| == |s.tokens|
  {
    match a
    case SetClient(client, row) => (s.(clients := s.clients[client := row]), Done)
    case Authorize(user, client, redirectUri, wanted, challenge, how, code, now) =>
      var refusal := AuthorizeChecks(s, a);
      if refusal.Some? then (s, Refused(refusal.value))
      else
        var row := AuthCode(client, user, s.clients[client].tenant, redirectUri, wanted, challenge, how,
                            now + CODE_LIFETIME, false);
        (s.(codes := s.codes[code := row]), Done)
    case ExchangeCode(client, _, code, _, _, resource, _, newToken, expires) =>
      var refusal := ExchangeChecks(env, s, a);
      if refusal.Some? then (s, Refused(refusal.value))
      else
        var row := s.codes[code];
        var grant := Grant(client, row.user, row.tenant, row.scopes);
        var spent := s.(codes := s.codes[code := row.(used := true)]);
        if "refresh_token" in s.clients[client].grantTypes then
          (Issued(spent, grant, resource, newToken, expires), Tokens(grant, resource, Some(newToken)))
        else (spent, Tokens(grant, resource, None))
    case Issue(grant, resource, newToken, expires) =>
      (Issued(s, grant, resource, newToken, expires), Tokens(grant, resource, Some(newToken)))
    case RefreshToken(client, secret, token, resource, now, newToken, expires) =>
      var refusal := RefreshChecks(env, s, client, secret, token, now);
      if refusal == Some(TokenReuse) then
        (s.(tokens := RevokeWhere(s.tokens, (t: Token) => SameOwner(t.grant, Row(s, token).grant))),
            Refused(TokenReuse))
      else if refusal.Some? then (s, Refused(refusal.value))
      else
        var row := Row(s, token);
        var bound := Carried(resource, row.resource);
        (Rotated(s, IndexOf(s.tokens, token), resource, newToken, expires),
         Tokens(row.grant, if bound.Some? then bound.value else "", Some(newToken)))
    case RevokeToken(client, secret, token, hint) =>
      var auth := Authenticate(env, s.clients, client, secret);
      if auth.Some? then (s, Refused(auth.value))
      else if hint == "access_token" then (s, Done)
      else (s.(tokens := RevokeWhere(s.tokens, (t: Token) => t.id == token && t.grant.client == client)), Done)
    case RevokeGrant(tenant, token) =>
      if !HasToken(s, token) || Row(s, token).grant.tenant != tenant then (s, Refused(NotFound))
      else
        var grant := Row(s, token).grant;
        (s.(tokens := RevokeWhere(s.tokens, (t: Token) => SameOwner(t.grant, grant) && t.grant.tenant == tenant)), Done)
  }

  function Run(env: Env, s: State, actions: seq<Action>): Option<State>
    requires |s.origins| == |s.tokens|
    ensures Run(env, s, actions).Some? ==> |Run(env, s, actions).value.origins| == |Run(env, s, actions).value.tokens|
    decreases |actions|
  {
    if actions == [] then Some(s)
    else if Fresh(s, actions[0]) then Run(env, Step(env, s, actions[0]).0, actions[1..])
    else None
  }

  const INIT: State := State(map[], map[], [], [])

  predicate Live(t: Token) {
    !t.used && !t.revoked
  }

  /** Introspect's answer for a refresh token; with the hint "access_token" it never looks at the rows. */
  predicate Active(s: State, token: Id, hint: string, now: int) {
    hint != "access_token" && HasToken(s, token) && Live(Row(s, token)) && now < Row(s, token).expires
  }

  /**
   * Whatever Introspect calls active can be refreshed by a client that may authenticate and owns the token.
   * Such a client can refresh a token that Introspect does not call active exactly when the token is live
   * and either it is the very instant of expiry, or it is not past it and the hint is "access_token".
   */
  lemma ActiveIffRefreshable(env: Env, s: State, client: string, secret: string, token: Id, hint: string, now: int)
    requires Authenticate(env, s.clients, client, secret).None? && HasToken(s, token) &&
             Row(s, token).grant.client == client
    ensures Active(s, token, hint, now) ==> RefreshChecks(env, s, client, secret, token, now).None?
    ensures RefreshChecks(env, s, client, secret, token, now).None? && !Active(s, token, hint, now) <==>
            Live(Row(s, token)) &&
            (now == Row(s, token).expires || (hint == "access_token" && now <= Row(s, token).expires))
  {
  }

  // ---------------------------------------------------------------------------------------
  // Families
  // ---------------------------------------------------------------------------------------

  /** The last resource, not empty, that a caller supplied in a family. */
  function LastSupplied(origins: seq<Origin>, family: nat): Option<string> {
    if origins == [] then None
    else
      var last := origins[|origins| - 1];
      if last.family == family && last.supplied != "" then Some(last.supplied)
      else LastSupplied(origins[..|origins| - 1], family)
  }

  predicate Related(s: State, i: nat, j: nat)
    requires |s.origins| == |s.tokens|
  {
    i < j < |s.tokens| && s.origins[i].family == s.origins[j].family
  }

  /** Of two tokens of a family the earlier is used, and both carry the same grant. */
  predicate PairOk(s: State, i: nat, j: nat)
    requires |s.origins| == |s.tokens|
  {
    Related(s, i, j) ==> s.tokens[i].used && s.tokens[i].grant == s.tokens[j].grant
  }

  /** Row j comes right after row i in their family. */
  predicate Next(s: State, i: nat, j: nat)
    requires |s.origins| == |s.tokens|
  {
    Related(s, i, j) && forall m :: i < m < j ==> s.origins[m].family != s.origins[i].family
  }

  predicate LinkOk(s: State, i: nat, j: nat)
    requires |s.origins| == |s.tokens|
  {
    Next(s, i, j) ==> s.tokens[i].replacedBy == Some(s.tokens[j].id)
  }

  predicate RowOk(s: State, i: nat)
    requires |s.origins| == |s.tokens| && i < |s.tokens|
  {
    && s.origins[i].family <= i
    && s.tokens[i].resource == LastSupplied(s.origins[..i + 1], s.origins[i].family)
    && (s.tokens[i].used <==> s.tokens[i].replacedBy.Some?)
    && (s.tokens[i].used ==> exists j :: i < j < |s.tokens| && Related(s, i, j))
  }

  ghost predicate Inv(s: State) {
    && |s.origins| == |s.tokens|
    && (forall i, j :: 0 <= i < j < |s.tokens| ==> s.tokens[i].id != s.tokens[j].id)
    && (forall i: nat, j: nat :: PairOk(s, i, j))
    && (forall i: nat, j: nat :: LinkOk(s, i, j))
    && forall i :: 0 <= i < |s.tokens| ==> RowOk(s, i)
  }

  /** Rows that differ at most in being revoked. */
  predicate OnlyRevoked(s: State, s': State) {
    && |s'.tokens| == |s.tokens| && s'.origins == s.origins
    && forall i :: 0 <= i < |s.tokens| ==> s'.tokens[i].(revoked := false) == s.tokens[i].(revoked := false)
  }

  lemma RevokedKeeps(s: State, s': State)
    requires Inv(s) && OnlyRevoked(s, s')
    ensures Inv(s')
  {
    forall i | 0 <= i < |s.tokens|
      ensures && s'.tokens[i].id == s.tokens[i].id && s'.tokens[i].grant == s.tokens[i].grant
              && s'.tokens[i].used == s.tokens[i].used && s'.tokens[i].replacedBy == s.tokens[i].replacedBy
              && s'.tokens[i].resource == s.tokens[i].resource
    {
      assert s'.tokens[i].(revoked := false) == s.tokens[i].(revoked := false);
    }
    forall i: nat, j: nat ensures PairOk(s', i, j) && LinkOk(s', i, j) {
      assert PairOk(s, i, j) && LinkOk(s, i, j);
    }
    forall i | 0 <= i < |s'.tokens| ensures RowOk(s', i) {
      assert RowOk(s, i);
      if s.tokens[i].used {
        var j :| i < j < |s.tokens| && Related(s, i, j);
        assert Related(s', i, j);
      }
    }
  }

  lemma {:induction false} NoneSupplied(origins: seq<Origin>, family: nat)
    requires forall i :: 0 <= i < |origins| ==> origins[i].family != family
    ensures LastSupplied(origins, family).None?
  {
    if origins != [] {
      NoneSupplied(origins[..|origins| - 1], family);
    }
  }

  lemma {:induction false} NonEmptySupplied(origins: seq<Origin>, family: nat)
    ensures LastSupplied(origins, family) != Some("")
  {
    if origins != [] {
      NonEmptySupplied(origins[..|origins| - 1], family);
    }
  }

  lemma {:induction false} SuppliedBefore(origins: seq<Origin>, n: nat, family: nat)
    requires n <= |origins| && forall i :: n <= i < |origins| ==> origins[i].family != family
    ensures LastSupplied(origins, family) == LastSupplied(origins[..n], family)
    decreases |origins|
  {
    if n < |origins| {
      SuppliedBefore(origins[..|origins| - 1], n, family);
      assert origins[..|origins| - 1][..n] == origins[..n];
    } else {
      assert origins[..n] == origins;
    }
  }

  lemma OldRow(s: State, s': State, i: nat)
    requires Inv(s) && i < |s.tokens| < |s'.tokens| == |s'.origins| && s'.origins[..|s.tokens|] == s.origins
    requires s'.tokens[i] == s.tokens[i]
    ensures RowOk(s', i)
  {
    assert RowOk(s, i);
    assert s'.origins[..i + 1] == s.origins[..i + 1];
    assert s'.origins[i] == s.origins[i];
    if s.tokens[i].used {
      var j :| i < j < |s.tokens| && Related(s, i, j);
      assert s'.origins[j] == s.origins[j];
      assert Related(s', i, j);
    }
  }

  lemma IssuedKeeps(s: State, grant: Grant, resource: string, id: Id, expires: int)
    requires Inv(s) && !HasToken(s, id)
    ensures Inv(Issued(s, grant, resource, id, expires))
  {
    var s', n := Issued(s, grant, resource, id, expires), |s.tokens|;
    assert s'.origins[..n] == s.origins;
    forall i | 0 <= i < n ensures RowOk(s', i) {
      OldRow(s, s', i);
    }
    forall i | 0 <= i < n ensures s.origins[i].family != n {
      assert RowOk(s, i);
    }
    NoneSupplied(s.origins, n);
    assert s'.origins[..n + 1] == s'.origins && RowOk(s', n);
    forall i: nat, j: nat ensures PairOk(s', i, j) && LinkOk(s', i, j) {
      IssuedPair(s, grant, resource, id, expires, i, j);
    }
  }

  /** A new family is related to no row before it. */
  lemma IssuedPair(s: State, grant: Grant, resource: string, id: Id, expires: int, i: nat, j: nat)
    requires Inv(s)
    ensures var s' := Issued(s, grant, resource, id, expires); PairOk(s', i, j) && LinkOk(s', i, j)
  {
    var s' := Issued(s, grant, resource, id, expires);
    assert PairOk(s, i, j) && LinkOk(s, i, j);
    if i < |s.tokens| {
      assert RowOk(s, i);
    }
    assert forall m :: 0 <= m < |s.tokens| ==> s'.origins[m] == s.origins[m];
    assert Related(s', i, j) ==> Related(s, i, j);
    if Next(s', i, j) {
      forall m | i < m < j ensures s.origins[m].family != s.origins[i].family {
        assert s'.origins[m] == s.origins[m];
      }
      assert Next(s, i, j);
    }
  }

  lemma RotatedKeeps(s: State, k: nat, resource: string, id: Id, expires: int)
    requires Inv(s) && k < |s.tokens| && !s.tokens[k].used && !HasToken(s, id)
    ensures Inv(Rotated(s, k, resource, id, expires))
  {
    var s', n, family := Rotated(s, k, resource, id, expires), |s.tokens|, s.origins[k].family;
    assert s'.origins[..n] == s.origins;
    forall i | k < i < n ensures s.origins[i].family != family {
      assert PairOk(s, k, i);
    }
    forall i | 0 <= i < n && i != k ensures RowOk(s', i) {
      OldRow(s, s', i);
    }
    RotatedRows(s, k, resource, id, expires);
    forall i: nat, j: nat ensures PairOk(s', i, j) {
      RotatedPair(s, k, resource, id, expires, i, j);
    }
    forall i: nat, j: nat ensures LinkOk(s', i, j) {
      RotatedLink(s, k, resource, id, expires, i, j);
    }
  }

  lemma RotatedRows(s: State, k: nat, resource: string, id: Id, expires: int)
    requires Inv(s) && k < |s.tokens| && forall i :: k < i < |s.tokens| ==> s.origins[i].family != s.origins[k].family
    ensures var s' := Rotated(s, k, resource, id, expires); RowOk(s', k) && RowOk(s', |s.tokens|)
  {
    var s', n, family := Rotated(s, k, resource, id, expires), |s.tokens|, s.origins[k].family;
    assert RowOk(s, k);
    assert s'.origins[..n] == s.origins && s'.origins[..n + 1] == s'.origins &&
        s'.origins[..k + 1] == s.origins[..k + 1];
    SuppliedBefore(s.origins, k + 1, family);
    NonEmptySupplied(s.origins, family);
    assert Related(s', k, n);
  }

  lemma RotatedPair(s: State, k: nat, resource: string, id: Id, expires: int, i: nat, j: nat)
    requires Inv(s) && k < |s.tokens| && !s.tokens[k].used
    requires forall m :: k < m < |s.tokens| ==> s.origins[m].family != s.origins[k].family
    ensures PairOk(Rotated(s, k, resource, id, expires), i, j)
  {
    var n := |s.tokens|;
    assert PairOk(s, i, j);
    if j == n && i < k {
      assert PairOk(s, i, k);
    }
  }

  lemma RotatedLink(s: State, k: nat, resource: string, id: Id, expires: int, i: nat, j: nat)
    requires Inv(s) && k < |s.tokens| && !s.tokens[k].used
    requires forall m :: k < m < |s.tokens| ==> s.origins[m].family != s.origins[k].family
    ensures LinkOk(Rotated(s, k, resource, id, expires), i, j)
  {
    var s', n := Rotated(s, k, resource, id, expires), |s.tokens|;
    if j < n {
      assert forall m :: 0 <= m < n ==> s'.origins[m] == s.origins[m];
      if Next(s', i, j) {
        forall m | i < m < j ensures s.origins[m].family != s.origins[i].family {
          assert s'.origins[m] == s.origins[m];
        }
        assert Next(s, i, j);
      }
      assert LinkOk(s, i, j) && PairOk(s, i, j);
    } else if j == n && i < k && Related(s', i, n) {
      assert s'.origins[k].family == s'.origins[i].family;
      assert !Next(s', i, n);
    }
  }
}
