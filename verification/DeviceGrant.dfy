/** The device grant (RFC 8628): rows of device codes, decided by user code and polled by device code. */
module DeviceGrant {
  import opened Wrappers
  import opened PollGrant
  import opened PollRuns

  /** The requested scopes, or all registered ones when none is requested; only registered ones are allowed. */
  method ChooseScopes(requested: seq<string>, registered: seq<string>) returns (chosen: Option<seq<string>>)
    ensures chosen.None? <==> exists i :: 0 <= i < |requested| && requested[i] !in registered
    ensures chosen.Some? ==> chosen.value == if requested == [] then registered else requested
    ensures chosen.Some? ==> forall w :: w in chosen.value ==> w in registered
  {
    var wanted := if requested == [] then registered else requested;
    var i := 0;
    while i < |wanted|
      invariant 0 <= i <= |wanted| && forall k :: 0 <= k < i ==> wanted[k] in registered
    {
      if wanted[i] !in registered {
        return None;
      }
      i := i + 1;
    }
    return Some(wanted);
  }

  datatype Decision = Decided | Expired | AlreadyDecided | NotInTenant

  class DeviceCode {
    const client: string
    const tenant: Id
    const scopes: seq<string>
    const expires: int
    var user: Option<Id>
    var status: Status
    var lastPolled: Option<int>
    var consumed: bool

    /** The row as it is inserted. */
    constructor (client: string, tenant: Id, scopes: seq<string>, created: int)
      ensures View() == NewCode(client, None, created) && this.tenant == tenant && this.scopes == scopes
      ensures View() == Code(client, Pending, None, 5 * SECOND, None, created + 600 * SECOND, false)
    {
      this.client, this.tenant, this.scopes, this.expires := client, tenant, scopes, created + CODE_TTL;
      user, status, lastPolled, consumed := None, Pending, None, false;
    }

    function View(): Code
      reads this
    {
      Code(client, status, user, POLL_INTERVAL, lastPolled, expires, consumed)
    }

    /** The user's decision, with the row locked; users maps each user to a tenant. */
    method Decide(users: map<Id, Id>, decider: Id, approve: bool, now: int) returns (r: Decision)
      modifies this
      ensures r.Expired? <==> now > expires
      ensures r.AlreadyDecided? <==> now <= expires && !old(status).Pending?
      ensures r.NotInTenant? <==> Open(old(View()), now) && approve && (decider !in users || users[decider] != tenant)
      ensures View() == if r.Decided? then Apply(old(View()), Choice(decider, approve, now)) else old(View())
      ensures var member := decider in users && users[decider] == tenant;
              View() == Affected(old(View()), EventOf(DecideCall(decider, approve, member, now)))
      ensures r.Decided? ==>
        View() == if approve then old(View()).(status := Authorized, bound := Some(decider))
                  else old(View()).(status := Denied)
      ensures !r.Decided? ==> View() == old(View())
    {
      if now > expires {
        return Expired;
      }
      if status != Pending {
        return AlreadyDecided;
      }
      if !approve {
        status := Denied;
        return Decided;
      }
      if decider !in users || users[decider] != tenant {
        return NotInTenant;
      }
      status, user := Authorized, Some(decider);
      return Decided;
    }

    /** A poll, with the row locked; what its transaction wrote is kept unless it rolls back. */
    method Token(caller: string, start: int, now: int) returns (answer: Answer)
      modifies this
      ensures answer == AnswerTo(old(View()), Poll(caller, start, now))
      ensures View() == Affected(old(View()), EventOf(TokenCall(caller, start, now)))
      ensures PollAnswers(old(View()), caller, now, answer) && PollLeaves(old(View()), start, answer, View())
    {
      AnswerMeans(View(), caller, start, now);
      var before := lastPolled;
      if client != caller {
        return InvalidGrant;
      }
      if consumed {
        return InvalidGrant;
      }
      if lastPolled.Some? && now - lastPolled.value < POLL_INTERVAL {
        lastPolled := Some(start);
        return SlowDown;
      }
      lastPolled := Some(start);
      if now > expires {
        return ExpiredToken;
      }
      match status {
        case Pending =>
          return AuthorizationPending;
        case Denied =>
          return AccessDenied;
        case Authorized =>
          if user.None? {
            lastPolled := before;
            return InvalidGrant;
          }
          consumed := true;
          return TokensFor(user.value);
      }
    }

    /** An administrator of the tenant revokes the code, whatever its status. */
    method Revoke(adminTenant: Id) returns (found: bool)
      modifies this
      ensures found <==> adminTenant == tenant
      ensures View() == Affected(old(View()), EventOf(RevokeCall(adminTenant == tenant)))
      ensures adminTenant == tenant ==> View() == old(View()).(status := Denied)
    {
      found := adminTenant == tenant;
      if found {
        status := Denied;
      }
    }
  }

  // ---------------------------------------------------------------------------------------
  // Runs of calls
  // ---------------------------------------------------------------------------------------

  /** A call of a method on one row; member says whether the deciding user is then of the row's tenant. */
  datatype Call =
    | DecideCall(user: Id, approve: bool, member: bool, now: int)
    | TokenCall(client: string, start: int, now: int)
    | RevokeCall(sameTenant: bool)

  /** What a call does to the code, or nothing. */
  function EventOf(call: Call): Option<Event> {
    match call
    case DecideCall(user, approve, member, now) =>
      if !approve then Some(Deny(now)) else if member then Some(Approve(user, now)) else None
    case TokenCall(client, start, now) => Some(Poll(client, start, now))
    case RevokeCall(sameTenant) => if sameTenant then Some(Event.Revoke) else None
  }

  function Effects(calls: seq<Call>): (effects: seq<Option<Event>>)
    ensures |effects| == |calls| && forall i :: 0 <= i < |calls| ==> effects[i] == EventOf(calls[i])
  {
    seq(|calls|, i requires 0 <= i < |calls| => EventOf(calls[i]))
  }

  /**
   * In every run a device gets tokens only before the code expires, as its client, and for a user who, as a
   * member of the tenant, approved the code while it was pending and before it expired; it gets them once;
   * and after an administrator's revocation, also of an authorized code, it never does.
   */
  lemma DeviceSafety(client: string, created: int, calls: seq<Call>, k: nat) returns (j: nat)
    requires k < |calls| && Answered(NewCode(client, None, created), Effects(calls), k).TokensFor?
    ensures calls[k].TokenCall? && calls[k].client == client && calls[k].now <= created + CODE_TTL
    ensures j < k && calls[j].DecideCall? && calls[j].approve && calls[j].member && calls[j].now <= created + CODE_TTL
    ensures calls[j].user == Answered(NewCode(client, None, created), Effects(calls), k).user
    ensures Before(NewCode(client, None, created), Effects(calls), j).status.Pending?
    ensures forall i :: 0 <= i < k ==>
              !Answered(NewCode(client, None, created), Effects(calls), i).TokensFor? && calls[i] != RevokeCall(true)
  {
    var c := NewCode(client, None, created);
    TokensInTime(c, Effects(calls), k);
    j := ApprovedBefore(c, Effects(calls), k);
    forall i | 0 <= i < k ensures !Answered(c, Effects(calls), i).TokensFor? && calls[i] != RevokeCall(true) {
      if Answered(c, Effects(calls), i).TokensFor? {
        TokensOnce(c, Effects(calls), i, k);
      }
      if calls[i] == RevokeCall(true) {
        EndedForGood(c, Effects(calls), i, k);
      }
    }
  }
}
