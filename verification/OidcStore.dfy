/** The provider's tables and the calls that change them, each one transaction. */
module OidcStore {
  import opened Wrappers
  import opened OidcGrants
  import opened OidcMeans

  class Tables {
    var clients: map<string, Client>
    var codes: map<string, AuthCode>
    var tokens: seq<Token>
    ghost var origins: seq<Origin>

    ghost function View(): State
      reads this
    {
      State(clients, codes, tokens, origins)
    }

    ghost predicate Aligned()
      reads this
    {
      |origins| == |tokens|
    }

    constructor ()
      ensures View() == INIT
    {
      clients, codes, tokens, origins := map[], map[], [], [];
    }

    method AuthenticateClient(env: Env, client: string, secret: string) returns (refusal: Option<Refusal>)
      ensures refusal == Authenticate(env, clients, client, secret)
    {
      if client !in clients {
        return Some(UnknownClient);
      }
      var row := clients[client];
      if row.confidential {
        if row.secretHash.None? || !env.verify(row.secretHash.value, secret) {
          return Some(InvalidSecret);
        }
      }
      return None;
    }

    method Authorize(env: Env, user: Id, client: string, redirectUri: string, wanted: seq<string>, challenge: string,
                     challengeMethod: string, code: string, now: int) returns (outcome: Outcome)
      requires Aligned() && code !in codes
      modifies this
      ensures (View(), outcome) ==
              Step(env, old(View()), Action.Authorize(user, client, redirectUri, wanted, challenge, challengeMethod,
                                                      code, now))
      ensures AuthorizeMeans(old(View()),
                             Action.Authorize(user, client, redirectUri, wanted, challenge, challengeMethod, code, now),
                             View(), outcome)
    {
      AuthorizeIs(env, View(), Action.Authorize(user, client, redirectUri, wanted, challenge, challengeMethod, code,
                                                       now));
      if client !in clients {
        return Refused(UnknownClient);
      }
      var row := clients[client];
      if redirectUri !in row.redirectUris {
        return Refused(RedirectNotRegistered);
      }
      var i := 0;
      while i < |wanted|
        invariant 0 <= i <= |wanted| && forall k :: 0 <= k < i ==> wanted[k] in row.scopes
      {
        if wanted[i] !in row.scopes {
          return Refused(ScopeNotPermitted);
        }
        i := i + 1;
      }
      codes := codes[code := AuthCode(client, user, row.tenant, redirectUri, wanted, challenge, challengeMethod,
                                      now + CODE_LIFETIME, false)];
      return Done;
    }

    method IssueRefreshToken(grant: Grant, resource: string, newToken: Id, expires: int)
      modifies this`tokens, this`origins
      ensures View() == Issued(old(View()), grant, resource, newToken, expires)
      ensures tokens == old(tokens) + [NewRow(newToken, grant, resource, expires)]
    {
      var bound := None;
      if resource != "" {
        bound := Some(resource);
      }
      origins := origins + [Origin(|tokens|, resource)];
      tokens := tokens + [Token(newToken, grant, bound, expires, false, false, None)];
    }

    method ExchangeCode(env: Env, client: string, secret: string, code: string, redirectUri: string, verifier: string,
                        resource: string, now: int, newToken: Id, expires: int) returns (outcome: Outcome)
      requires Aligned() && !HasToken(View(), newToken)
      modifies this
      ensures (View(), outcome) ==
              Step(env, old(View()), Action.ExchangeCode(client, secret, code, redirectUri, verifier, resource, now,
                                                         newToken, expires))
      ensures ExchangeMeans(env, old(View()),
                            Action.ExchangeCode(client, secret, code, redirectUri, verifier, resource, now, newToken,
                                                expires),
                            View(), outcome)
    {
      ExchangeIs(env, View(), Action.ExchangeCode(client, secret, code, redirectUri, verifier, resource, now, newToken,
                                                  expires));
      var auth := AuthenticateClient(env, client, secret);
      if auth.Some? {
        return Refused(auth.value);
      }
      if code !in codes || codes[code].client != client {
        return Refused(InvalidCode);
      }
      var row := codes[code];
      if row.used {
        return Refused(CodeUsed);
      }
      if now > row.expires {
        return Refused(CodeExpired);
      }
      if row.redirectUri != redirectUri {
        return Refused(RedirectMismatch);
      }
      if row.challenge != "" {
        if verifier == "" {
          return Refused(VerifierRequired);
        }
        if row.challengeMethod != "S256" {
          return Refused(UnsupportedMethod);
        }
        if env.s256(verifier) != row.challenge {
          return Refused(InvalidVerifier);
        }
      }
      codes := codes[code := row.(used := true)];
      var grant := Grant(client, row.user, row.tenant, row.scopes);
      if "refresh_token" in clients[client].grantTypes {
        IssueRefreshToken(grant, resource, newToken, expires);
        return Outcome.Tokens(grant, resource, Some(newToken));
      }
      return Outcome.Tokens(grant, resource, None);
    }

    method RefreshToken(env: Env, client: string, secret: string, token: Id, resource: string, now: int,
                        newToken: Id, expires: int) returns (outcome: Outcome)
      requires Aligned() && !HasToken(View(), newToken)
      modifies this
      ensures (View(), outcome) ==
              Step(env, old(View()), Action.RefreshToken(client, secret, token, resource, now, newToken, expires))
      ensures RefreshMeans(env, old(View()),
                           Action.RefreshToken(client, secret, token, resource, now, newToken, expires),
                           View(), outcome)
    {
      RefreshIs(env, View(), Action.RefreshToken(client, secret, token, resource, now, newToken, expires));
      var auth := AuthenticateClient(env, client, secret);
      if auth.Some? {
        return Refused(auth.value);
      }
      var k := IndexOf(tokens, token);
      if k == |tokens| {
        return Refused(UnknownToken);
      }
      var row := tokens[k];
      if row.grant.client != client {
        return Refused(ClientMismatch);
      }
      if row.revoked {
        return Refused(TokenRevoked);
      }
      if row.used {
        tokens := RevokeWhere(tokens, (t: Token) => SameOwner(t.grant, row.grant));
        ghost var call := Action.RefreshToken(client, secret, token, resource, now, newToken, expires);
        assert tokens == Step(env, old(View()), call).0.tokens;
        return Refused(TokenReuse);
      }
      if now > row.expires {
        return Refused(TokenExpired);
      }
      var bound := resource;
      if resource == "" && row.resource.Some? {
        bound := row.resource.value;
      }
      outcome := Rotate(k, bound, resource, newToken, expires);
    }

    /** The new row inserted, then the old one marked used and replaced. */
    method Rotate(k: nat, bound: string, ghost supplied: string, newToken: Id, expires: int) returns (outcome: Outcome)
      requires Aligned() && k < |tokens|
      requires Bound(bound) == Carried(supplied, tokens[k].resource)
      modifies this`tokens, this`origins
      ensures View() == Rotated(old(View()), k, supplied, newToken, expires)
      ensures outcome == Outcome.Tokens(old(tokens)[k].grant, bound, Some(newToken))
    {
      var row := tokens[k];
      var newResource := None;
      if bound != "" {
        newResource := Some(bound);
      }
      origins := origins + [Origin(origins[k].family, supplied)];
      tokens := tokens + [Token(newToken, row.grant, newResource, expires, false, false, None)];
      tokens := tokens[k := row.(used := true, replacedBy := Some(newToken))];
      return Outcome.Tokens(row.grant, bound, Some(newToken));
    }

    method RevokeToken(env: Env, client: string, secret: string, token: Id, hint: string) returns (outcome: Outcome)
      requires Aligned()
      modifies this
      ensures (View(), outcome) == Step(env, old(View()), Action.RevokeToken(client, secret, token, hint))
      ensures RevokeMeans(env, old(View()), Action.RevokeToken(client, secret, token, hint), View(), outcome)
    {
      RevokeIs(env, View(), Action.RevokeToken(client, secret, token, hint));
      var auth := AuthenticateClient(env, client, secret);
      if auth.Some? {
        return Refused(auth.value);
      }
      if hint == "access_token" {
        return Done;
      }
      tokens := RevokeWhere(tokens, (t: Token) => t.id == token && t.grant.client == client);
      assert tokens == Step(env, old(View()), Action.RevokeToken(client, secret, token, hint)).0.tokens;
      return Done;
    }

    method RevokeGrant(env: Env, tenant: Id, token: Id) returns (outcome: Outcome)
      requires Aligned()
      modifies this
      ensures (View(), outcome) == Step(env, old(View()), Action.RevokeGrant(tenant, token))
      ensures RevokeGrantMeans(old(View()), Action.RevokeGrant(tenant, token), View(), outcome)
    {
      RevokeGrantIs(env, View(), Action.RevokeGrant(tenant, token));
      var k := IndexOf(tokens, token);
      if k == |tokens| || tokens[k].grant.tenant != tenant {
        return Refused(NotFound);
      }
      var grant := tokens[k].grant;
      tokens := RevokeWhere(tokens, (t: Token) => SameOwner(t.grant, grant) && t.grant.tenant == tenant);
      assert tokens == Step(env, old(View()), Action.RevokeGrant(tenant, token)).0.tokens;
      return Done;
    }

    /** The answer for a refresh token; None when the client cannot authenticate. */
    method Introspect(env: Env, client: string, secret: string, token: Id, hint: string, now: int)
      returns (active: Option<bool>)
      ensures active == if Authenticate(env, clients, client, secret).Some? then None
                        else Some(Active(View(), token, hint, now))
      ensures IntrospectMeans(env, View(), client, secret, token, hint, now, active)
    {
      RowIs(View(), token);
      var auth := AuthenticateClient(env, client, secret);
      if auth.Some? {
        return None;
      }
      if hint == "access_token" {
        return Some(false);
      }
      var k := IndexOf(tokens, token);
      if k == |tokens| {
        return Some(false);
      }
      var row := tokens[k];
      return Some(!(row.revoked || row.used || !(now < row.expires)));
    }
  }
}
