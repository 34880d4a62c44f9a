/** What every sequence of calls to the OIDC provider keeps, and what reuse and revocation end. */
module OidcRuns {
  import opened Wrappers
  import opened OidcGrants

  lemma StepKeeps(env: Env, s: State, a: Action)
    requires Inv(s) && Fresh(s, a)
    ensures Inv(Step(env, s, a).0)
  {
    var s' := Step(env, s, a).0;
    match a {
      case ExchangeCode(_, _, code, _, _, _, _, _, _) =>
        if ExchangeChecks(env, s, a).None? {
          var row := s.codes[code];
          var spent := s.(codes := s.codes[code := row.(used := true)]);
          RevokedKeeps(s, spent);
          IssuedKeeps(spent, Grant(a.client, row.user, row.tenant, row.scopes), a.resource, a.newToken, a.expires);
        }
      case Issue(grant, resource, newToken, expires) => IssuedKeeps(s, grant, resource, newToken, expires);
      case RefreshToken(client, secret, token, resource, now, newToken, expires) =>
        var refusal := RefreshChecks(env, s, client, secret, token, now);
        if refusal.None? {
          RotatedKeeps(s, IndexOf(s.tokens, token), resource, newToken, expires);
        } else {
          RevokedKeeps(s, s');
        }
      case _ => RevokedKeeps(s, s');
    }
  }

  lemma {:induction false} RunKeeps(env: Env, s: State, actions: seq<Action>)
    requires Inv(s)
    ensures Run(env, s, actions).Some? ==> Inv(Run(env, s, actions).value)
    decreases |actions|
  {
    if actions != [] && Fresh(s, actions[0]) {
      StepKeeps(env, s, actions[0]);
      RunKeeps(env, Step(env, s, actions[0]).0, actions[1..]);
    }
  }

  // ---------------------------------------------------------------------------------------
  // Families
  // ---------------------------------------------------------------------------------------

  /**
   * After every run: a token keeps the client, user, tenant and scopes of its family; every token of a
   * family but the last is used, and replaced by the next; and each is bound to the last resource, not
   * empty, supplied in its family up to it.
   */
  lemma FamiliesHold(env: Env, actions: seq<Action>, i: nat, j: nat)
    requires Run(env, INIT, actions).Some?
    requires i < j < |Run(env, INIT, actions).value.tokens|
    ensures var s := Run(env, INIT, actions).value;
            && (Related(s, i, j) ==> s.tokens[i].grant == s.tokens[j].grant && s.tokens[i].used)
            && (Next(s, i, j) ==> s.tokens[i].replacedBy == Some(s.tokens[j].id))
            && s.tokens[j].resource == LastSupplied(s.origins[..j + 1], s.origins[j].family)
  {
    var s := Run(env, INIT, actions).value;
    InitInv();
    RunKeeps(env, INIT, actions);
    assert PairOk(s, i, j) && LinkOk(s, i, j) && RowOk(s, j);
  }

  lemma InitInv()
    ensures Inv(INIT)
  {
  }

  /** A family never has two live tokens. */
  lemma OneLiveToken(env: Env, actions: seq<Action>, i: nat, j: nat)
    requires Run(env, INIT, actions).Some?
    requires var s := Run(env, INIT, actions).value;
             && i < |s.tokens| && j < |s.tokens| && s.origins[i].family == s.origins[j].family
             && Live(s.tokens[i]) && Live(s.tokens[j])
    ensures i == j
  {
    if i < j {
      FamiliesHold(env, actions, i, j);
    } else if j < i {
      FamiliesHold(env, actions, j, i);
    }
  }

  // ---------------------------------------------------------------------------------------
  // Dead tokens
  // ---------------------------------------------------------------------------------------

  /** Rows stay, keep their grant, and never come back to life. */
  predicate Kept(s: State, s': State) {
    && |s.tokens| <= |s'.tokens|
    && forall i :: 0 <= i < |s.tokens| ==>
         && s'.tokens[i].id == s.tokens[i].id && s'.tokens[i].grant == s.tokens[i].grant
         && (s.tokens[i].used ==> s'.tokens[i].used) && (s.tokens[i].revoked ==> s'.tokens[i].revoked)
  }

  lemma StepKept(env: Env, s: State, a: Action)
    requires Fresh(s, a) && |s.origins| == |s.tokens|
    ensures Kept(s, Step(env, s, a).0)
  {
  }

  lemma {:induction false} RunKept(env: Env, s: State, actions: seq<Action>)
    requires |s.origins| == |s.tokens|
    ensures Run(env, s, actions).Some? ==> Kept(s, Run(env, s, actions).value)
    decreases |actions|
  {
    if actions != [] && Fresh(s, actions[0]) {
      StepKept(env, s, actions[0]);
      RunKept(env, Step(env, s, actions[0]).0, actions[1..]);
    }
  }

  lemma KeptRow(s: State, s': State, id: Id)
    requires Kept(s, s') && HasToken(s, id)
    ensures HasToken(s', id) && Row(s', id).grant == Row(s, id).grant
    ensures (Row(s, id).used ==> Row(s', id).used) && (Row(s, id).revoked ==> Row(s', id).revoked)
  {
    var k := IndexOf(s.tokens, id);
    forall i | 0 <= i < k ensures s'.tokens[i].id != id {
      assert s'.tokens[i].id == s.tokens[i].id;
    }
    assert s'.tokens[k].id == id;
  }

  /** A token that was once used or revoked is never redeemed again, by whomever and whenever. */
  lemma DeadForGood(env: Env, s: State, actions: seq<Action>, client: string, secret: string, token: Id, now: int)
    requires |s.origins| == |s.tokens| && HasToken(s, token) && !Live(Row(s, token)) && Run(env, s, actions).Some?
    ensures RefreshChecks(env, Run(env, s, actions).value, client, secret, token, now).Some?
  {
    RunKept(env, s, actions);
    KeptRow(s, Run(env, s, actions).value, token);
  }

  /** A redeemed token is dead, so no token is redeemed twice. */
  lemma RedeemedOnce(env: Env, s: State, a: Action, actions: seq<Action>, client: string, secret: string, now: int)
    requires Inv(s) && Fresh(s, a) && a.RefreshToken? && Step(env, s, a).1.Tokens?
    requires Run(env, Step(env, s, a).0, actions).Some?
    ensures RefreshChecks(env, Run(env, Step(env, s, a).0, actions).value, client, secret, a.token, now).Some?
  {
    var s' := Step(env, s, a).0;
    StepKeeps(env, s, a);
    StepKept(env, s, a);
    KeptRow(s, s', a.token);
    SameIndex(s, s', a.token);
    DeadForGood(env, s', actions, client, secret, a.token, now);
  }

  lemma SameIndex(s: State, s': State, id: Id)
    requires Kept(s, s') && HasToken(s, id)
    ensures IndexOf(s'.tokens, id) == IndexOf(s.tokens, id)
  {
    var k := IndexOf(s.tokens, id);
    forall i | 0 <= i < k ensures s'.tokens[i].id != id {
      assert s'.tokens[i].id == s.tokens[i].id;
    }
    assert s'.tokens[k].id == id;
  }

  /**
   * The replay by its own client of a used token that is not revoked, expired or not, leaves no live token
   * of that client and user: none of the tokens there are then is ever redeemed again.
   */
  lemma ReplayEndsAll(env: Env, s: State, a: Action, actions: seq<Action>, other: Id,
                      client: string, secret: string, now: int)
    requires Inv(s) && Fresh(s, a) && a.RefreshToken? && HasToken(s, a.token) && HasToken(s, other)
    requires Authenticate(env, s.clients, a.client, a.secret).None? && Row(s, a.token).grant.client == a.client
    requires Row(s, a.token).used && !Row(s, a.token).revoked
    requires SameOwner(Row(s, other).grant, Row(s, a.token).grant)
    requires Run(env, Step(env, s, a).0, actions).Some?
    ensures Step(env, s, a).1 == Refused(TokenReuse)
    ensures RefreshChecks(env, Run(env, Step(env, s, a).0, actions).value, client, secret, other, now).Some?
  {
    var s' := Step(env, s, a).0;
    assert RefreshChecks(env, s, a.client, a.secret, a.token, a.now) == Some(TokenReuse);
    StepKept(env, s, a);
    SameIndex(s, s', other);
    assert s'.tokens[IndexOf(s.tokens, other)].revoked;
    DeadForGood(env, s', actions, client, secret, other, now);
  }

  /**
   * A revocation by the token's owner always succeeds, but it ends a live token, for every run that follows,
   * exactly when the hint is not "access_token": with that hint nothing is done, and until the token expires
   * its owner can refresh it.
   */
  lemma RevokedUnlessHinted(env: Env, s: State, client: string, secret: string, token: Id, hint: string,
                            actions: seq<Action>, now: int)
    requires Inv(s) && Authenticate(env, s.clients, client, secret).None?
    requires HasToken(s, token) && Live(Row(s, token)) && Row(s, token).grant.client == client
    requires Run(env, Step(env, s, Action.RevokeToken(client, secret, token, hint)).0, actions).Some?
    ensures var (s', outcome) := Step(env, s, Action.RevokeToken(client, secret, token, hint));
            && outcome.Done? && HasToken(s', token) && (Live(Row(s', token)) <==> hint == "access_token")
            && (hint == "access_token" && now <= Row(s, token).expires ==>
                  RefreshChecks(env, s', client, secret, token, now).None?)
            && (hint != "access_token" ==>
                  RefreshChecks(env, Run(env, s', actions).value, client, secret, token, now).Some?)
  {
    var a := Action.RevokeToken(client, secret, token, hint);
    var s' := Step(env, s, a).0;
    StepKept(env, s, a);
    SameIndex(s, s', token);
    if hint != "access_token" {
      assert s'.tokens[IndexOf(s.tokens, token)].revoked;
      DeadForGood(env, s', actions, client, secret, token, now);
    }
  }

  /** Revoking one token of a grant as its tenant's administrator ends the whole family. */
  lemma RevokeGrantEndsFamily(env: Env, s: State, tenant: Id, token: Id, i: nat, actions: seq<Action>,
                              client: string, secret: string, now: int)
    requires Inv(s) && HasToken(s, token) && Row(s, token).grant.tenant == tenant && i < |s.tokens|
    requires s.origins[i].family == s.origins[IndexOf(s.tokens, token)].family
    requires Run(env, Step(env, s, RevokeGrant(tenant, token)).0, actions).Some?
    ensures var s' := Run(env, Step(env, s, RevokeGrant(tenant, token)).0, actions).value;
            RefreshChecks(env, s', client, secret, s.tokens[i].id, now).Some?
  {
    var a := RevokeGrant(tenant, token);
    var k, s1 := IndexOf(s.tokens, token), Step(env, s, a).0;
    assert PairOk(s, i, k) && PairOk(s, k, i);
    assert s.tokens[i].grant == s.tokens[k].grant;
    UniqueIndex(s, i);
    StepKept(env, s, a);
    SameIndex(s, s1, s.tokens[i].id);
    assert s1.tokens[i].revoked;
    DeadForGood(env, s1, actions, client, secret, s.tokens[i].id, now);
  }

  lemma UniqueIndex(s: State, i: nat)
    requires Inv(s) && i < |s.tokens|
    ensures IndexOf(s.tokens, s.tokens[i].id) == i
  {
  }

  /** After a refresh the family of the new token is the presented one's, and the grant is unchanged. */
  lemma RefreshStaysInFamily(env: Env, s: State, a: Action)
    requires Inv(s) && Fresh(s, a) && a.RefreshToken? && Step(env, s, a).1.Tokens?
    ensures var s' := Step(env, s, a).0;
            var k, n := IndexOf(s.tokens, a.token), |s.tokens|;
            && |s'.tokens| == n + 1 && s'.tokens[n].id == a.newToken && s'.origins[n].family == s.origins[k].family
            && s'.tokens[n].grant == s.tokens[k].grant && Step(env, s, a).1.grant == s.tokens[k].grant
            && Bound(Step(env, s, a).1.resource) == s'.tokens[n].resource ==
                LastSupplied(s'.origins, s.origins[k].family)
  {
    var s', k := Step(env, s, a).0, IndexOf(s.tokens, a.token);
    StepKeeps(env, s, a);
    assert RowOk(s', |s.tokens|) && s'.origins[..|s.tokens| + 1] == s'.origins;
    NonEmptySupplied(s'.origins, s.origins[k].family);
  }

  // ---------------------------------------------------------------------------------------
  // Authorization codes
  // ---------------------------------------------------------------------------------------

  /** A code exchanged once is refused ever after. */
  lemma CodeExchangedOnce(env: Env, s: State, a: Action, actions: seq<Action>, b: Action)
    requires |s.origins| == |s.tokens| && Fresh(s, a) && a.ExchangeCode? && Step(env, s, a).1.Tokens?
    requires Run(env, Step(env, s, a).0, actions).Some? && b.ExchangeCode? && b.code == a.code
    ensures ExchangeChecks(env, Run(env, Step(env, s, a).0, actions).value, b).Some?
  {
    UsedCodeStays(env, Step(env, s, a).0, actions, a.code);
  }

  lemma {:induction false} UsedCodeStays(env: Env, s: State, actions: seq<Action>, code: string)
    requires |s.origins| == |s.tokens| && code in s.codes && s.codes[code].used
    ensures Run(env, s, actions).Some? ==>
              var s' := Run(env, s, actions).value; code in s'.codes && s'.codes[code].used
    decreases |actions|
  {
    if actions != [] && Fresh(s, actions[0]) {
      UsedCodeStays(env, Step(env, s, actions[0]).0, actions[1..], code);
    }
  }
}
