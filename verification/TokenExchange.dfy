/** Token exchange: a scope string is split, narrowed and joined, and no chain of exchanges gains a scope. */
module TokenExchange {
  import opened Wrappers
  import OidcGrants

  // ---------------------------------------------------------------------------------------
  // strings.Fields and strings.Join
  // ---------------------------------------------------------------------------------------

  predicate IsSpace(c: char) {
    || c == ' ' || '\t' <= c <= '\r' || c == '\U{85}' || c == '\U{A0}' || c == '\U{1680}'
    || '\U{2000}' <= c <= '\U{200A}' || c == '\U{2028}' || c == '\U{2029}' || c == '\U{202F}' || c == '\U{205F}'
    || c == '\U{3000}'
  }

  /** The length of the word a string begins with. */
  function WordLength(s: string): (n: nat)
    ensures n <= |s| && forall i :: 0 <= i < n ==> !IsSpace(s[i])
    ensures n < |s| ==> IsSpace(s[n])
  {
    if s == "" || IsSpace(s[0]) then 0 else 1 + WordLength(s[1..])
  }

  function Fields(s: string): seq<string>
    decreases |s|
  {
    if s == "" then []
    else if IsSpace(s[0]) then Fields(s[1..])
    else [s[..WordLength(s)]] + Fields(s[WordLength(s)..])
  }

  function Join(words: seq<string>): string {
    if words == [] then "" else if |words| == 1 then words[0] else words[0] + (" " + Join(words[1..]))
  }

  predicate IsWord(w: string) {
    w != "" && forall i :: 0 <= i < |w| ==> !IsSpace(w[i])
  }

  predicate AllSpace(s: string) {
    forall i :: 0 <= i < |s| ==> IsSpace(s[i])
  }

  lemma {:induction false} FieldsAreWords(s: string)
    ensures forall w :: w in Fields(s) ==> IsWord(w)
    decreases |s|
  {
    if s != "" {
      FieldsAreWords(if IsSpace(s[0]) then s[1..] else s[WordLength(s)..]);
    }
  }

  lemma {:induction false} FieldsOfSpace(s: string)
    ensures Fields(s) == [] <==> AllSpace(s)
    decreases |s|
  {
    if s != "" && IsSpace(s[0]) {
      FieldsOfSpace(s[1..]);
      assert AllSpace(s[1..]) ==> AllSpace(s) by {
        assert s == [s[0]] + s[1..];
      }
    }
  }

  lemma {:induction false} WordLengthIs(s: string, n: nat)
    requires n <= |s| && (forall i :: 0 <= i < n ==> !IsSpace(s[i])) && (n < |s| ==> IsSpace(s[n]))
    ensures WordLength(s) == n
  {
    if n > 0 {
      WordLengthIs(s[1..], n - 1);
    }
  }

  lemma WordThen(w: string, rest: string)
    requires IsWord(w) && (rest == "" || IsSpace(rest[0]))
    ensures Fields(w + rest) == [w] + Fields(rest)
  {
    var s := w + rest;
    assert s[0] == w[0];
    WordLengthIs(s, |w|);
    assert s[..|w|] == w && s[|w|..] == rest;
  }

  /** Splitting undoes joining. */
  lemma {:induction false} FieldsOfJoin(words: seq<string>)
    requires forall w :: w in words ==> IsWord(w)
    ensures Fields(Join(words)) == words
  {
    if words != [] {
      if |words| == 1 {
        WordThen(words[0], "");
        assert words[0] + "" == words[0];
      } else {
        var rest := " " + Join(words[1..]);
        FieldsOfJoin(words[1..]);
        WordThen(words[0], rest);
        assert rest[1..] == Join(words[1..]);
      }
    }
  }

  // ---------------------------------------------------------------------------------------
  // Exchange
  // ---------------------------------------------------------------------------------------

  const ACCESS_TOKEN: string := "urn:ietf:params:oauth:token-type:access_token"
  const TOKEN_EXCHANGE: string := "urn:ietf:params:oauth:grant-type:token-exchange"

  /** What an access token says. */
  datatype Claims = Claims(
    subject: string, tenant: nat, session: nat, scope: string, actor: Option<string>, audience: Option<string>)

  /** Token verification, the reading and printing of a user id, and the checks of client secrets. */
  datatype Env = Env(
    verify: string -> Option<Claims>, parseUser: string -> Option<nat>, showUser: nat -> string,
    secrets: OidcGrants.Env)

  /** A user id printed reads back as the same user. */
  ghost predicate ShownUsersRead(env: Env) {
    forall u: nat :: env.parseUser(env.showUser(u)) == Some(u)
  }

  datatype Request = Request(
    client: string, secret: string, subjectToken: string, subjectType: string, requestedType: string, scope: string,
    actorToken: string, actorType: string, resource: string, newSession: nat)

  datatype Refusal =
    | ClientRefused(why: OidcGrants.Refusal) | NotPermitted | SubjectRequired | SubjectTypeUnsupported
    | RequestedTypeUnsupported | InvalidSubject | NoUserSubject | ScopeExceeded | ActorTypeUnsupported | InvalidActor

  /** The requested scopes when the subject holds each of them; its own when none is requested. */
  method Downscope(subjectScopes: seq<string>, requestedScope: string) returns (granted: seq<string>, ok: bool)
    ensures ok <==> forall w :: w in Fields(requestedScope) ==> w in subjectScopes
    ensures ok ==> granted == if AllSpace(requestedScope) then subjectScopes else Fields(requestedScope)
    ensures ok ==> forall w :: w in granted ==> w in subjectScopes
  {
    FieldsOfSpace(requestedScope);
    var requested := Fields(requestedScope);
    if requested == [] {
      return subjectScopes, true;
    }
    var i := 0;
    while i < |requested|
      invariant 0 <= i <= |requested| && forall k :: 0 <= k < i ==> requested[k] in subjectScopes
    {
      if requested[i] !in subjectScopes {
        return [], false;
      }
      i := i + 1;
    }
    return requested, true;
  }

  function Checks(env: Env, clients: map<string, OidcGrants.Client>, r: Request): Option<Refusal> {
    var auth := OidcGrants.Authenticate(env.secrets, clients, r.client, r.secret);
    var claims := env.verify(r.subjectToken);
    if auth.Some? then Some(ClientRefused(auth.value))
    else if "token_exchange" !in clients[r.client].grantTypes && TOKEN_EXCHANGE !in clients[r.client].grantTypes then
      Some(NotPermitted)
    else if r.subjectToken == "" then Some(SubjectRequired)
    else if r.subjectType != "" && r.subjectType != ACCESS_TOKEN then Some(SubjectTypeUnsupported)
    else if r.requestedType != "" && r.requestedType != ACCESS_TOKEN then Some(RequestedTypeUnsupported)
    else if claims.None? then Some(InvalidSubject)
    else if env.parseUser(claims.value.subject).None? then Some(NoUserSubject)
    else if exists i :: 0 <= i < |Fields(r.scope)| && Fields(r.scope)[i] !in Fields(claims.value.scope) then
      Some(ScopeExceeded)
    else if r.actorToken == "" then None
    else if r.actorType != "" && r.actorType != ACCESS_TOKEN then Some(ActorTypeUnsupported)
    else if env.verify(r.actorToken).None? then Some(InvalidActor)
    else None
  }

  function Scopes(c: Claims): set<string> {
    set w | w in Fields(c.scope)
  }

  // What each refusal means, on the client's row and the request.

  predicate Admitted(env: Env, clients: map<string, OidcGrants.Client>, r: Request) {
    && r.client in clients
    && (clients[r.client].confidential ==>
          && clients[r.client].secretHash.Some?
          && env.secrets.verify(clients[r.client].secretHash.value, r.secret))
  }

  predicate Permitted(env: Env, clients: map<string, OidcGrants.Client>, r: Request) {
    && Admitted(env, clients, r)
    && ("token_exchange" in clients[r.client].grantTypes ||
        "urn:ietf:params:oauth:grant-type:token-exchange" in clients[r.client].grantTypes)
  }

  /** A type that is left out or is that of access tokens. */
  predicate AccessType(kind: string) {
    kind == "" || kind == "urn:ietf:params:oauth:token-type:access_token"
  }

  predicate WellTyped(r: Request) {
    r.subjectToken != "" && AccessType(r.subjectType) && AccessType(r.requestedType)
  }

  /** The subject token is valid and names a user. */
  predicate HasSubject(env: Env, r: Request) {
    env.verify(r.subjectToken).Some? && env.parseUser(env.verify(r.subjectToken).value.subject).Some?
  }

  predicate Covered(env: Env, r: Request)
    requires HasSubject(env, r)
  {
    forall w :: w in Fields(r.scope) ==> w in Fields(env.verify(r.subjectToken).value.scope)
  }

  predicate Acceptable(env: Env, clients: map<string, OidcGrants.Client>, r: Request) {
    Permitted(env, clients, r) && WellTyped(r) && HasSubject(env, r) && Covered(env, r)
  }

  ghost predicate ExchangeAnswers(
      env: Env, clients: map<string, OidcGrants.Client>, r: Request, result: Result<Claims, Refusal>)
  {
    var permitted := Permitted(env, clients, r);
    && (result.Err? && result.error.ClientRefused? <==> !Admitted(env, clients, r))
    && (result == Err(NotPermitted) <==> Admitted(env, clients, r) && !permitted)
    && (result == Err(SubjectRequired) <==> permitted && r.subjectToken == "")
    && (result == Err(SubjectTypeUnsupported) <==> permitted && r.subjectToken != "" && !AccessType(r.subjectType))
    && (result == Err(RequestedTypeUnsupported) <==>
          permitted && r.subjectToken != "" && AccessType(r.subjectType) && !AccessType(r.requestedType))
    && (result == Err(InvalidSubject) <==> permitted && WellTyped(r) && env.verify(r.subjectToken).None?)
    && (result == Err(NoUserSubject) <==>
          permitted && WellTyped(r) && env.verify(r.subjectToken).Some? && !HasSubject(env, r))
    && (result == Err(ScopeExceeded) <==> permitted && WellTyped(r) && HasSubject(env, r) && !Covered(env, r))
    && (result == Err(ActorTypeUnsupported) <==>
          Acceptable(env, clients, r) && r.actorToken != "" && !AccessType(r.actorType))
    && (result == Err(InvalidActor) <==>
          && Acceptable(env, clients, r) && r.actorToken != "" && AccessType(r.actorType)
          && env.verify(r.actorToken).None?)
    && (result.Ok? <==>
          && Acceptable(env, clients, r)
          && (r.actorToken != "" ==> AccessType(r.actorType) && env.verify(r.actorToken).Some?))
  }

  lemma ChecksMean(env: Env, clients: map<string, OidcGrants.Client>, r: Request, result: Result<Claims, Refusal>)
    requires Checks(env, clients, r) == if result.Ok? then None else Some(result.error)
    ensures ExchangeAnswers(env, clients, r, result)
  {
    if HasSubject(env, r) {
      ScopesCovered(Fields(r.scope), Fields(env.verify(r.subjectToken).value.scope));
    }
  }

  lemma ScopesCovered(wanted: seq<string>, held: seq<string>)
    ensures (exists i :: 0 <= i < |wanted| && wanted[i] !in held) <==> !(forall w :: w in wanted ==> w in held)
  {
  }

  /** authenticateClient: the grant types of a client that authenticates. */
  method GrantTypesOf(env: Env, clients: map<string, OidcGrants.Client>, r: Request)
    returns (grantTypes: seq<string>, refusal: Option<Refusal>)
    ensures var auth := OidcGrants.Authenticate(env.secrets, clients, r.client, r.secret);
            refusal == if auth.Some? then Some(ClientRefused(auth.value)) else None
    ensures refusal.None? ==> r.client in clients && grantTypes == clients[r.client].grantTypes
  {
    if r.client !in clients {
      return [], Some(ClientRefused(OidcGrants.UnknownClient));
    }
    var row := clients[r.client];
    if row.confidential {
      if row.secretHash.None? || !env.secrets.verify(row.secretHash.value, r.secret) {
        return [], Some(ClientRefused(OidcGrants.InvalidSecret));
      }
    }
    return row.grantTypes, None;
  }

  /** Every refusal as Checks says; otherwise claims with the subject's user, tenant and at most its scopes. */
  method Exchange(env: Env, clients: map<string, OidcGrants.Client>, r: Request)
      returns (result: Result<Claims, Refusal>)
    ensures result.Err? ==> Checks(env, clients, r) == Some(result.error)
    ensures result.Ok? ==>
              Checks(env, clients, r).None? && Derived(env, env.verify(r.subjectToken).value, r, result.value)
    ensures ExchangeAnswers(env, clients, r, result)
  {
    result := ExchangeSteps(env, clients, r);
    ChecksMean(env, clients, r, result);
  }

  /** Its steps. */
  method ExchangeSteps(env: Env, clients: map<string, OidcGrants.Client>, r: Request)
    returns (result: Result<Claims, Refusal>)
    ensures result.Err? ==> Checks(env, clients, r) == Some(result.error)
    ensures result.Ok? ==>
              Checks(env, clients, r).None? && Derived(env, env.verify(r.subjectToken).value, r, result.value)
  {
    var grantTypes, refusal := GrantTypesOf(env, clients, r);
    if refusal.Some? {
      return Err(refusal.value);
    }
    if "token_exchange" !in grantTypes && TOKEN_EXCHANGE !in grantTypes {
      return Err(NotPermitted);
    }
    if r.subjectToken == "" {
      return Err(SubjectRequired);
    }
    if r.subjectType != "" && r.subjectType != ACCESS_TOKEN {
      return Err(SubjectTypeUnsupported);
    }
    if r.requestedType != "" && r.requestedType != ACCESS_TOKEN {
      return Err(RequestedTypeUnsupported);
    }
    var claims := env.verify(r.subjectToken);
    if claims.None? {
      return Err(InvalidSubject);
    }
    var user := env.parseUser(claims.value.subject);
    if user.None? {
      return Err(NoUserSubject);
    }
    var granted, ok := Downscope(Fields(claims.value.scope), r.scope);
    if !ok {
      return Err(ScopeExceeded);
    }
    var actor := None;
    if r.actorToken != "" {
      if r.actorType != "" && r.actorType != ACCESS_TOKEN {
        return Err(ActorTypeUnsupported);
      }
      var actorClaims := env.verify(r.actorToken);
      if actorClaims.None? {
        return Err(InvalidActor);
      }
      if actorClaims.value.subject != "" {
        actor := Some(actorClaims.value.subject);
      }
    }
    var session := if claims.value.session == 0 then r.newSession else claims.value.session;
    var audience := if r.resource == "" then None else Some(r.resource);
    return Ok(Claims(env.showUser(user.value), claims.value.tenant, session, Join(granted), actor, audience));
  }

  /** The party acting for the subject, when the request names one. */
  function ActorOf(env: Env, r: Request): Option<string> {
    if r.actorToken == "" || env.verify(r.actorToken).None? || env.verify(r.actorToken).value.subject == "" then None
    else Some(env.verify(r.actorToken).value.subject)
  }

  /** What a successful exchange issues for a subject's claims. */
  predicate Derived(env: Env, subject: Claims, r: Request, child: Claims) {
    && env.parseUser(subject.subject).Some? && child.subject == env.showUser(env.parseUser(subject.subject).value)
    && child.tenant == subject.tenant
    && child.session == (if subject.session == 0 then r.newSession else subject.session)
    && (forall w :: w in Fields(r.scope) ==> w in Fields(subject.scope))
    && child.scope == Join(if AllSpace(r.scope) then Fields(subject.scope) else Fields(r.scope))
    && child.actor == ActorOf(env, r)
    && child.audience == (if r.resource == "" then None else Some(r.resource))
  }

  /** An issued scope string, read back, holds exactly the granted scopes, all of them the parent's. */
  lemma DerivedScopes(env: Env, subject: Claims, r: Request, child: Claims)
    requires Derived(env, subject, r, child)
    ensures Fields(child.scope) == if AllSpace(r.scope) then Fields(subject.scope) else Fields(r.scope)
    ensures Scopes(child) <= Scopes(subject)
  {
    FieldsAreWords(subject.scope);
    FieldsAreWords(r.scope);
    FieldsOfJoin(if AllSpace(r.scope) then Fields(subject.scope) else Fields(r.scope));
  }

  /** A chain of exchanges: each request turns a token into the next. */
  ghost predicate Chain(env: Env, tokens: seq<Claims>, requests: seq<Request>) {
    |tokens| == |requests| + 1 && forall i :: 0 <= i < |requests| ==>
        Derived(env, tokens[i], requests[i], tokens[i + 1])
  }

  /** Along any chain the user and the tenant stay, and the scopes never grow, whatever their spelling. */
  lemma {:induction false} NoEscalation(env: Env, tokens: seq<Claims>, requests: seq<Request>, i: nat, j: nat)
    requires ShownUsersRead(env) && Chain(env, tokens, requests) && i < j < |tokens|
    ensures env.parseUser(tokens[j].subject) == env.parseUser(tokens[i].subject) && tokens[j].tenant == tokens[i].tenant
    ensures Scopes(tokens[j]) <= Scopes(tokens[i])
    ensures tokens[i].session != 0 ==> tokens[j].session == tokens[i].session
    decreases j
  {
    assert Derived(env, tokens[j - 1], requests[j - 1], tokens[j - 1 + 1]);
    DerivedScopes(env, tokens[j - 1], requests[j - 1], tokens[j]);
    if i < j - 1 {
      NoEscalation(env, tokens, requests, i, j - 1);
    }
  }
}
