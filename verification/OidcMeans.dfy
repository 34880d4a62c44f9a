/** What the calls to the OIDC provider answer and change, on the fields of the rows. */
module OidcMeans {
  import opened Wrappers
  import opened OidcGrants
  import opened OidcRuns

  /** A registered client that is public, or whose secret verifies against its stored hash. */
  predicate Admitted(env: Env, s: State, client: string, secret: string) {
    && client in s.clients
    && (s.clients[client].confidential ==>
          s.clients[client].secretHash.Some? && env.verify(s.clients[client].secretHash.value, secret))
  }

  /** The answer to one that is not. */
  predicate Turned(env: Env, s: State, client: string, secret: string, outcome: Outcome) {
    && (outcome == Refused(UnknownClient) <==> client !in s.clients)
    && (outcome == Refused(InvalidSecret) <==> client in s.clients && !Admitted(env, s, client, secret))
  }

  /** Row k is the one with the id. */
  predicate IsRow(s: State, id: Id, k: nat) {
    k < |s.tokens| && s.tokens[k].id == id && forall j :: 0 <= j < k ==> s.tokens[j].id != id
  }

  ghost predicate NoRow(s: State, id: Id) {
    forall k :: 0 <= k < |s.tokens| ==> s.tokens[k].id != id
  }

  lemma RowIs(s: State, id: Id)
    ensures NoRow(s, id) <==> !HasToken(s, id)
    ensures forall k: nat :: IsRow(s, id, k) <==> HasToken(s, id) && k == IndexOf(s.tokens, id)
  {
  }

  // ---------------------------------------------------------------------------------------
  // Authorization codes
  // ---------------------------------------------------------------------------------------

  predicate AuthorizeMeans(s: State, a: Action, s': State, outcome: Outcome)
    requires a.Authorize?
  {
    && (outcome == Refused(UnknownClient) <==> a.client !in s.clients)
    && (outcome == Refused(RedirectNotRegistered) <==>
          a.client in s.clients && a.redirectUri !in s.clients[a.client].redirectUris)
    && (outcome == Refused(ScopeNotPermitted) <==>
          && a.client in s.clients && a.redirectUri in s.clients[a.client].redirectUris
          && exists w :: w in a.wanted && w !in s.clients[a.client].scopes)
    && (outcome == Done <==>
          && a.client in s.clients && a.redirectUri in s.clients[a.client].redirectUris
          && forall w :: w in a.wanted ==> w in s.clients[a.client].scopes)
    && (if outcome == Done then
          s' == s.(codes := s.codes[a.code := AuthCode(
            client := a.client, user := a.user, tenant := s.clients[a.client].tenant, redirectUri := a.redirectUri,
            scopes := a.wanted, challenge := a.challenge, challengeMethod := a.challengeMethod,
            expires := a.now + 600, used := false)])
        else s' == s)
  }

  lemma AuthorizeIs(env: Env, s: State, a: Action)
    requires a.Authorize? && Fresh(s, a) && |s.origins| == |s.tokens|
    ensures AuthorizeMeans(s, a, Step(env, s, a).0, Step(env, s, a).1)
  {
    if a.client in s.clients {
      var scopes := s.clients[a.client].scopes;
      assert (exists i :: 0 <= i < |a.wanted| && a.wanted[i] !in scopes) <==> exists w :: w in a.wanted && w !in scopes;
    }
  }

  /** The code is the client's, not used, not expired, and was asked for with this redirect. */
  predicate Presentable(s: State, a: Action)
    requires a.ExchangeCode?
  {
    && a.code in s.codes && s.codes[a.code].client == a.client && !s.codes[a.code].used
    && a.now <= s.codes[a.code].expires && s.codes[a.code].redirectUri == a.redirectUri
  }

  /** A code with a challenge needs the verifier whose S256 hash it is. */
  predicate Verified(env: Env, s: State, a: Action)
    requires a.ExchangeCode? && a.code in s.codes
  {
    var code := s.codes[a.code];
    code.challenge == "" ||
    (a.verifier != "" && code.challengeMethod == "S256" && env.s256(a.verifier) == code.challenge)
  }

  predicate ExchangeAnswers(env: Env, s: State, a: Action, outcome: Outcome)
    requires a.ExchangeCode?
  {
    var admitted := Admitted(env, s, a.client, a.secret);
    var own := admitted && a.code in s.codes && s.codes[a.code].client == a.client;
    && Turned(env, s, a.client, a.secret, outcome)
    && (outcome == Refused(InvalidCode) <==> admitted && !own)
    && (outcome == Refused(CodeUsed) <==> own && s.codes[a.code].used)
    && (outcome == Refused(CodeExpired) <==> own && !s.codes[a.code].used && a.now > s.codes[a.code].expires)
    && (outcome == Refused(RedirectMismatch) <==>
          && own && !s.codes[a.code].used && a.now <= s.codes[a.code].expires
          && s.codes[a.code].redirectUri != a.redirectUri)
    && (outcome == Refused(VerifierRequired) <==>
          admitted && Presentable(s, a) && s.codes[a.code].challenge != "" && a.verifier == "")
    && (outcome == Refused(UnsupportedMethod) <==>
          && admitted && Presentable(s, a) && s.codes[a.code].challenge != "" && a.verifier != ""
          && s.codes[a.code].challengeMethod != "S256")
    && (outcome == Refused(InvalidVerifier) <==>
          && admitted && Presentable(s, a) && s.codes[a.code].challenge != "" && a.verifier != ""
          && s.codes[a.code].challengeMethod == "S256" && env.s256(a.verifier) != s.codes[a.code].challenge)
    && (outcome.Tokens? <==> admitted && Presentable(s, a) && Verified(env, s, a))
  }

  predicate ExchangeMeans(env: Env, s: State, a: Action, s': State, outcome: Outcome)
    requires a.ExchangeCode?
  {
    && ExchangeAnswers(env, s, a, outcome)
    && (!outcome.Tokens? ==> s' == s)
    && (outcome.Tokens? && a.code in s.codes && a.client in s.clients ==>
          var code := s.codes[a.code];
          var grant := Grant(client := a.client, user := code.user, tenant := code.tenant, scopes := code.scopes);
          var refreshes := "refresh_token" in s.clients[a.client].grantTypes;
          && outcome == Tokens(grant, a.resource, if refreshes then Some(a.newToken) else None)
          && s'.codes == s.codes[a.code := code.(used := true)] && s'.clients == s.clients
          && s'.tokens == s.tokens + if refreshes then [NewRow(a.newToken, grant, a.resource, a.expires)] else [])
  }

  /** A new token row; an empty resource is stored as none. */
  function NewRow(id: Id, grant: Grant, resource: string, expires: int): Token {
    Token(id := id, grant := grant, resource := if resource == "" then None else Some(resource), expires := expires,
          used := false, revoked := false, replacedBy := None)
  }

  lemma ExchangeIs(env: Env, s: State, a: Action)
    requires a.ExchangeCode? && Fresh(s, a) && |s.origins| == |s.tokens|
    ensures ExchangeMeans(env, s, a, Step(env, s, a).0, Step(env, s, a).1)
  {
  }

  // ---------------------------------------------------------------------------------------
  // Refresh tokens
  // ---------------------------------------------------------------------------------------

  /** The answer for row k: tokens if and only if it is the client's and neither revoked, used nor expired. */
  predicate RowAnswers(s: State, a: Action, k: nat, outcome: Outcome)
    requires a.RefreshToken? && k < |s.tokens|
  {
    var row := s.tokens[k];
    && (outcome == Refused(ClientMismatch) <==> row.grant.client != a.client)
    && (outcome == Refused(TokenRevoked) <==> row.grant.client == a.client && row.revoked)
    && (outcome == Refused(TokenReuse) <==> row.grant.client == a.client && !row.revoked && row.used)
    && (outcome == Refused(TokenExpired) <==>
          row.grant.client == a.client && !row.revoked && !row.used && a.now > row.expires)
    && (outcome.Tokens? <==> row.grant.client == a.client && !row.revoked && !row.used && a.now <= row.expires)
  }

  /** The resource the new row carries: the one asked for, or else that of row k. */
  function Resource(s: State, a: Action, k: nat): string
    requires a.RefreshToken? && k < |s.tokens|
  {
    if a.resource != "" then a.resource
    else if s.tokens[k].resource.Some? then s.tokens[k].resource.value
    else ""
  }

  /** What changes: a rotation, the end of every token of a reused one's client and user, or nothing. */
  predicate RowChanges(s: State, a: Action, k: nat, s': State, outcome: Outcome)
    requires a.RefreshToken? && k < |s.tokens|
  {
    var row := s.tokens[k];
    && s'.clients == s.clients && s'.codes == s.codes
    && (outcome.Tokens? ==>
          && outcome == Tokens(row.grant, Resource(s, a, k), Some(a.newToken))
          && s'.tokens == s.tokens[k := row.(used := true, replacedBy := Some(a.newToken))]
                          + [NewRow(a.newToken, row.grant, Resource(s, a, k), a.expires)])
    && (outcome == Refused(TokenReuse) ==>
          RevokedExactly(s.tokens, s'.tokens,
                         (t: Token) => t.grant.client == a.client && t.grant.user == row.grant.user))
    && (outcome.Refused? && outcome.why != TokenReuse ==> s' == s)
  }

  /** Those rows are revoked, and nothing else is changed. */
  predicate RevokedExactly(before: seq<Token>, after: seq<Token>, which: Token -> bool) {
    && |after| == |before|
    && forall i :: 0 <= i < |before| ==> after[i] == before[i].(revoked := before[i].revoked || which(before[i]))
  }

  ghost predicate RefreshMeans(env: Env, s: State, a: Action, s': State, outcome: Outcome)
    requires a.RefreshToken?
  {
    var admitted := Admitted(env, s, a.client, a.secret);
    && Turned(env, s, a.client, a.secret, outcome)
    && (outcome == Refused(UnknownToken) <==> admitted && NoRow(s, a.token))
    && (!admitted || NoRow(s, a.token) ==> outcome.Refused? && s' == s)
    && forall k: nat :: admitted && IsRow(s, a.token, k) ==>
         RowAnswers(s, a, k, outcome) && RowChanges(s, a, k, s', outcome)
  }

  lemma RefreshIs(env: Env, s: State, a: Action)
    requires a.RefreshToken? && Fresh(s, a) && |s.origins| == |s.tokens|
    ensures RefreshMeans(env, s, a, Step(env, s, a).0, Step(env, s, a).1)
  {
    RowIs(s, a.token);
    if Admitted(env, s, a.client, a.secret) && HasToken(s, a.token) {
      RowIsMeant(env, s, a);
    }
  }

  lemma RowIsMeant(env: Env, s: State, a: Action)
    requires a.RefreshToken? && Fresh(s, a) && |s.origins| == |s.tokens|
    requires Admitted(env, s, a.client, a.secret) && HasToken(s, a.token)
    ensures var k := IndexOf(s.tokens, a.token);
            RowAnswers(s, a, k, Step(env, s, a).1) && RowChanges(s, a, k, Step(env, s, a).0, Step(env, s, a).1)
  {
  }

  /** Whoever presents another client's token, used or not, is refused and changes nothing. */
  lemma StrangerChangesNothing(env: Env, s: State, a: Action, k: nat)
    requires a.RefreshToken? && Fresh(s, a) && |s.origins| == |s.tokens|
    requires IsRow(s, a.token, k) && s.tokens[k].grant.client != a.client
    ensures Step(env, s, a).1.Refused? && Step(env, s, a).0 == s
  {
    RefreshIs(env, s, a);
    if Admitted(env, s, a.client, a.secret) {
      assert RowAnswers(s, a, k, Step(env, s, a).1) && RowChanges(s, a, k, Step(env, s, a).0, Step(env, s, a).1);
    }
  }

  // ---------------------------------------------------------------------------------------
  // Revocation and introspection
  // ---------------------------------------------------------------------------------------

  /** The client's own token is revoked and no other token is touched. */
  predicate RevokeMeans(env: Env, s: State, a: Action, s': State, outcome: Outcome)
    requires a.RevokeToken?
  {
    var acts := Admitted(env, s, a.client, a.secret) && a.hint != "access_token";
    && Turned(env, s, a.client, a.secret, outcome)
    && (outcome == Done <==> Admitted(env, s, a.client, a.secret))
    && s'.clients == s.clients && s'.codes == s.codes
    && RevokedExactly(s.tokens, s'.tokens, (t: Token) => acts && t.id == a.token && t.grant.client == a.client)
  }

  lemma RevokeIs(env: Env, s: State, a: Action)
    requires a.RevokeToken? && |s.origins| == |s.tokens|
    ensures RevokeMeans(env, s, a, Step(env, s, a).0, Step(env, s, a).1)
  {
  }

  /** The tenant's tokens of the same client and user are revoked and no other token is touched. */
  ghost predicate RevokeGrantMeans(s: State, a: Action, s': State, outcome: Outcome)
    requires a.RevokeGrant?
  {
    && (outcome == Done <==> exists k: nat :: IsRow(s, a.token, k) && s.tokens[k].grant.tenant == a.tenant)
    && (outcome != Done ==> outcome == Refused(NotFound) && s' == s)
    && s'.clients == s.clients && s'.codes == s.codes
    && forall k: nat :: outcome == Done && IsRow(s, a.token, k) ==>
         var grant := s.tokens[k].grant;
         RevokedExactly(s.tokens, s'.tokens, (t: Token) =>
           t.grant.client == grant.client && t.grant.user == grant.user && t.grant.tenant == a.tenant)
  }

  lemma RevokeGrantIs(env: Env, s: State, a: Action)
    requires a.RevokeGrant? && |s.origins| == |s.tokens|
    ensures RevokeGrantMeans(s, a, Step(env, s, a).0, Step(env, s, a).1)
  {
    RowIs(s, a.token);
  }

  /** Active: a row of the token that is neither revoked nor used nor at its expiry, looked for without that hint. */
  ghost predicate IntrospectMeans(
      env: Env, s: State, client: string, secret: string, token: Id, hint: string, now: int, active: Option<bool>)
  {
    && (active.None? <==> !Admitted(env, s, client, secret))
    && (active == Some(true) <==>
          && Admitted(env, s, client, secret) && hint != "access_token"
          && exists k: nat :: IsRow(s, token, k) && !s.tokens[k].revoked && !s.tokens[k].used
                              && now < s.tokens[k].expires)
  }

  // ---------------------------------------------------------------------------------------
  // Who obtained a successor
  // ---------------------------------------------------------------------------------------

  /** Action m is a redemption by the client, admitted then, that gave the token. */
  predicate RedeemedBy(env: Env, actions: seq<Action>, m: nat, client: string, id: Id) {
    && m < |actions| && actions[m].RefreshToken? && actions[m].newToken == id && actions[m].client == client
    && Run(env, INIT, actions[..m]).Some?
    && Admitted(env, Run(env, INIT, actions[..m]).value, client, actions[m].secret)
  }

  ghost predicate Redeemed(env: Env, actions: seq<Action>, client: string, id: Id) {
    exists m: nat :: RedeemedBy(env, actions, m, client, id)
  }

  /** Every row that did not start its family was obtained by the client of its grant. */
  ghost predicate Owned(env: Env, actions: seq<Action>, s: State) {
    && |s.origins| == |s.tokens|
    && forall j :: 0 <= j < |s.tokens| && s.origins[j].family != j ==>
         Redeemed(env, actions, s.tokens[j].grant.client, s.tokens[j].id)
  }

  lemma RedeemedLasts(env: Env, actions: seq<Action>, a: Action, client: string, id: Id)
    requires Redeemed(env, actions, client, id)
    ensures Redeemed(env, actions + [a], client, id)
  {
    var m: nat :| RedeemedBy(env, actions, m, client, id);
    assert (actions + [a])[..m] == actions[..m];
    assert RedeemedBy(env, actions + [a], m, client, id);
  }

  lemma JustRedeemed(env: Env, actions: seq<Action>, s: State, a: Action)
    requires Run(env, INIT, actions) == Some(s) && Fresh(s, a) && a.RefreshToken? && Step(env, s, a).1.Tokens?
    ensures Admitted(env, s, a.client, a.secret) && HasToken(s, a.token)
    ensures Row(s, a.token).grant.client == a.client && Redeemed(env, actions + [a], a.client, a.newToken)
  {
    RefreshIs(env, s, a);
    RowIs(s, a.token);
    assert (actions + [a])[..|actions|] == actions;
    assert RedeemedBy(env, actions + [a], |actions|, a.client, a.newToken);
  }

  lemma SameOrigins(env: Env, s: State, a: Action, j: nat)
    requires Fresh(s, a) && |s.origins| == |s.tokens| && j < |Step(env, s, a).0.tokens|
    ensures |Step(env, s, a).0.origins| == |Step(env, s, a).0.tokens|
    ensures j < |s.tokens| ==> Step(env, s, a).0.origins[j] == s.origins[j]
    ensures j >= |s.tokens| && Step(env, s, a).0.origins[j].family != j ==>
              && a.RefreshToken? && Step(env, s, a).1.Tokens?
              && Step(env, s, a).0.tokens[j].id == a.newToken && HasToken(s, a.token)
              && Step(env, s, a).0.tokens[j].grant == Row(s, a.token).grant
  {
  }

  lemma OwnedStep(env: Env, actions: seq<Action>, s: State, a: Action)
    requires Run(env, INIT, actions) == Some(s) && Fresh(s, a) && Owned(env, actions, s)
    ensures Owned(env, actions + [a], Step(env, s, a).0)
  {
    var s' := Step(env, s, a).0;
    StepKept(env, s, a);
    forall j | 0 <= j < |s'.tokens| && s'.origins[j].family != j
      ensures Redeemed(env, actions + [a], s'.tokens[j].grant.client, s'.tokens[j].id)
    {
      SameOrigins(env, s, a, j);
      if j < |s.tokens| {
        RedeemedLasts(env, actions, a, s.tokens[j].grant.client, s.tokens[j].id);
      } else {
        JustRedeemed(env, actions, s, a);
      }
    }
  }

  lemma {:induction false} RunInit(env: Env, s: State, init: seq<Action>, last: Action)
    requires |s.origins| == |s.tokens| && Run(env, s, init + [last]).Some?
    ensures Run(env, s, init).Some? && Fresh(Run(env, s, init).value, last)
    ensures Run(env, s, init + [last]).value == Step(env, Run(env, s, init).value, last).0
    decreases |init|
  {
    if init == [] {
      assert init + [last] == [last] && [last][1..] == [];
    } else {
      assert (init + [last])[1..] == init[1..] + [last];
      RunInit(env, Step(env, s, init[0]).0, init[1..], last);
    }
  }

  lemma {:induction false} RunOwned(env: Env, actions: seq<Action>)
    requires Run(env, INIT, actions).Some?
    ensures Owned(env, actions, Run(env, INIT, actions).value)
  {
    if actions != [] {
      var init, last := actions[..|actions| - 1], actions[|actions| - 1];
      assert actions == init + [last];
      RunInit(env, INIT, init, last);
      RunOwned(env, init);
      OwnedStep(env, init, Run(env, INIT, init).value, last);
    }
  }

  /** In every run a token that succeeds another of its family was obtained by the client of the family. */
  lemma SuccessorsAreOwned(env: Env, actions: seq<Action>, i: nat, j: nat) returns (m: nat)
    requires Run(env, INIT, actions).Some? && Related(Run(env, INIT, actions).value, i, j)
    ensures var s := Run(env, INIT, actions).value;
            && RedeemedBy(env, actions, m, s.tokens[j].grant.client, s.tokens[j].id)
            && s.tokens[j].grant.client == s.tokens[i].grant.client
  {
    var s := Run(env, INIT, actions).value;
    InitInv();
    RunKeeps(env, INIT, actions);
    assert RowOk(s, i) && PairOk(s, i, j);
    RunOwned(env, actions);
    assert Redeemed(env, actions, s.tokens[j].grant.client, s.tokens[j].id);
    m :| RedeemedBy(env, actions, m, s.tokens[j].grant.client, s.tokens[j].id);
  }
}
