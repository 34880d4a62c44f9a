/** The CIBA grant: the user is known from the start and decides among his own pending requests. */
module CibaGrant {
  import opened Wrappers
  import opened TokenExchange
  import opened PollGrant
  import opened PollRuns
  import DeviceGrant

  const GRANT_TYPE: string := "urn:openid:params:grant-type:ciba"

  datatype AuthorizeError = UnauthorizedClient | LoginHintRequired | InvalidScope | UnknownUser

  predicate Exceeds(scope: string, registered: seq<string>) {
    exists i :: 0 <= i < |TokenExchange.Fields(scope)| && TokenExchange.Fields(scope)[i] !in registered
  }

  /** The request a client that has authenticated may start: for the user its hint names in its own tenant. */
  method BackchannelAuthorize(grantTypes: seq<string>, registered: seq<string>, users: map<string, PollGrant.Id>,
                              loginHint: string, scope: string)
    returns (r: Result<(PollGrant.Id, seq<string>), AuthorizeError>)
    ensures r == Err(UnauthorizedClient) <==> GRANT_TYPE !in grantTypes
    ensures r == Err(LoginHintRequired) <==> GRANT_TYPE in grantTypes && AllSpace(loginHint)
    ensures r == Err(InvalidScope) <==> GRANT_TYPE in grantTypes && !AllSpace(loginHint) && Exceeds(scope, registered)
    ensures r == Err(UnknownUser) <==>
      GRANT_TYPE in grantTypes && !AllSpace(loginHint) && !Exceeds(scope, registered) && loginHint !in users
    ensures r.Ok? ==> loginHint in users && r.value.0 == users[loginHint]
    ensures r.Ok? ==> forall w :: w in r.value.1 ==> w in registered
    ensures r.Ok? ==> r.value.1 == if AllSpace(scope) then registered else TokenExchange.Fields(scope)
  {
    FieldsOfSpace(loginHint);
    FieldsOfSpace(scope);
    if GRANT_TYPE !in grantTypes {
      return Err(UnauthorizedClient);
    }
    if TokenExchange.Fields(loginHint) == [] {
      return Err(LoginHintRequired);
    }
    var scopes := DeviceGrant.ChooseScopes(TokenExchange.Fields(scope), registered);
    if scopes.None? {
      return Err(InvalidScope);
    }
    if loginHint !in users {
      return Err(UnknownUser);
    }
    return Ok((users[loginHint], scopes.value));
  }

  datatype Decision = Decided | NotYours | Expired | AlreadyDecided

  class Request {
    const client: string
    const tenant: PollGrant.Id
    const user: PollGrant.Id
    const scopes: seq<string>
    const expires: int
    var status: Status
    var lastPolled: Option<int>
    var consumed: bool

    constructor (client: string, tenant: PollGrant.Id, user: PollGrant.Id, scopes: seq<string>, created: int)
      ensures View() == NewCode(client, Some(user), created)
      ensures View() == Code(client, Pending, Some(user), 5 * SECOND, None, created + 600 * SECOND, false)
      ensures this.tenant == tenant && this.user == user && this.scopes == scopes
    {
      this.client, this.tenant, this.user, this.scopes, this.expires :=
          client, tenant, user, scopes, created + CODE_TTL;
      status, lastPolled, consumed := Pending, None, false;
    }

    function View(): Code
      reads this
    {
      Code(client, status, Some(user), POLL_INTERVAL, lastPolled, expires, consumed)
    }

    /** The user's decision on a request of his own, with the row locked. */
    method Decide(decider: PollGrant.Id, approve: bool, now: int) returns (r: Decision)
      modifies this
      ensures r.NotYours? <==> decider != user
      ensures r.Expired? <==> decider == user && now > expires
      ensures r.AlreadyDecided? <==> decider == user && now <= expires && !old(status).Pending?
      ensures View() == if r.Decided? then Apply(old(View()), Choice(decider, approve, now)) else old(View())
      ensures View() == Affected(old(View()), EventOf(user, DecideCall(decider, approve, now)))
      ensures r.Decided? ==> View() == old(View()).(status := if approve then Authorized else Denied)
      ensures !r.Decided? ==> View() == old(View())
    {
      if user != decider {
        return NotYours;
      }
      if now > expires {
        return Expired;
      }
      if status != Pending {
        return AlreadyDecided;
      }
      status := if approve then Authorized else Denied;
      return Decided;
    }

    /** A poll, with the row locked. */
    method Token(caller: string, start: int, now: int) returns (answer: Answer)
      modifies this
      ensures answer == AnswerTo(old(View()), Poll(caller, start, now))
      ensures View() == Affected(old(View()), EventOf(user, TokenCall(caller, start, now)))
      ensures PollAnswers(old(View()), caller, now, answer) && PollLeaves(old(View()), start, answer, View())
    {
      AnswerMeans(View(), caller, start, now);
      if client != caller {
        return InvalidGrant;
      }
      if consumed {
        return InvalidGrant;
      }
      if lastPolled.Some? && now - lastPolled.value < POLL_INTERVAL {
        lastPolled := Some(start);
        return SlowDown;
      }
      lastPolled := Some(start);
      if now > expires {
        return ExpiredToken;
      }
      match status {
        case Pending =>
          return AuthorizationPending;
        case Denied =>
          return AccessDenied;
        case Authorized =>
          consumed := true;
          return TokensFor(user);
      }
    }
  }

  // ---------------------------------------------------------------------------------------
  // Runs of calls
  // ---------------------------------------------------------------------------------------

  datatype Call =
    | DecideCall(user: PollGrant.Id, approve: bool, now: int)
    | TokenCall(client: string, start: int, now: int)

  /** What a call does to a request for the user named by the hint, or nothing. */
  function EventOf(hinted: PollGrant.Id, call: Call): Option<Event> {
    match call
    case DecideCall(user, approve, now) =>
      if user != hinted then None else if approve then Some(Approve(user, now)) else Some(Deny(now))
    case TokenCall(client, start, now) => Some(Poll(client, start, now))
  }

  function Effects(hinted: PollGrant.Id, calls: seq<Call>): (effects: seq<Option<Event>>)
    ensures |effects| == |calls| && forall i :: 0 <= i < |calls| ==> effects[i] == EventOf(hinted, calls[i])
  {
    seq(|calls|, i requires 0 <= i < |calls| => EventOf(hinted, calls[i]))
  }

  /**
   * In every run a client gets tokens only before its request expires and only for the user of its hint, who
   * approved the request while it was pending and before it expired, and it gets them once.
   */
  lemma CibaSafety(client: string, hinted: PollGrant.Id, created: int, calls: seq<Call>, k: nat) returns (j: nat)
    requires k < |calls| && Answered(NewCode(client, Some(hinted), created), Effects(hinted, calls), k).TokensFor?
    ensures Answered(NewCode(client, Some(hinted), created), Effects(hinted, calls), k) == TokensFor(hinted)
    ensures calls[k].TokenCall? && calls[k].client == client && calls[k].now <= created + CODE_TTL
    ensures j < k && calls[j] == DecideCall(hinted, true, calls[j].now) && calls[j].now <= created + CODE_TTL
    ensures Before(NewCode(client, Some(hinted), created), Effects(hinted, calls), j).status.Pending?
    ensures forall i :: 0 <= i < k ==>
            !Answered(NewCode(client, Some(hinted), created), Effects(hinted, calls), i).TokensFor?
  {
    var c := NewCode(client, Some(hinted), created);
    TokensInTime(c, Effects(hinted, calls), k);
    j := ApprovedBefore(c, Effects(hinted, calls), k);
    forall i | 0 <= i < k ensures !Answered(c, Effects(hinted, calls), i).TokensFor? {
      if Answered(c, Effects(hinted, calls), i).TokensFor? {
        TokensOnce(c, Effects(hinted, calls), i, k);
      }
    }
  }
}
