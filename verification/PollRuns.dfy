/** Runs of calls on one code, each of which has an effect on it or none. */
module PollRuns {
  import opened Wrappers
  import opened PollGrant

  function Events(effects: seq<Option<Event>>): seq<Event> {
    if effects == [] then []
    else
      var last := effects[|effects| - 1];
      Events(effects[..|effects| - 1]) + if last.Some? then [last.value] else []
  }

  /** The code as call k finds it. */
  function Before(c: Code, effects: seq<Option<Event>>, k: nat): Code
    requires k <= |effects|
  {
    After(c, Events(effects[..k]))
  }

  function Answered(c: Code, effects: seq<Option<Event>>, k: nat): Answer
    requires k < |effects|
  {
    if effects[k].None? then NoAnswer else AnswerTo(Before(c, effects, k), effects[k].value)
  }

  /** The code after a call with this effect. */
  function Affected(c: Code, effect: Option<Event>): Code {
    if effect.None? then c else Apply(c, effect.value)
  }

  lemma BeforeNext(c: Code, effects: seq<Option<Event>>, j: nat)
    requires j < |effects|
    ensures Before(c, effects, j + 1) == Affected(Before(c, effects, j), effects[j])
  {
    assert effects[..j + 1][..j] == effects[..j];
    if effects[j].Some? {
      Snoc(c, Events(effects[..j]), effects[j].value);
    } else {
      assert Events(effects[..j]) + [] == Events(effects[..j]);
    }
  }

  /** What a code keeps from one call to a later one. */
  predicate Kept(a: Code, b: Code) {
    && a.expires == b.expires && a.client == b.client && (a.consumed ==> b.consumed)
    && (a.status.Denied? ==> b.status.Denied?)
    && (a.status.Authorized? ==> !b.status.Pending? && b.bound == a.bound)
  }

  lemma StepKeeps(c: Code, e: Event)
    ensures Kept(c, Apply(c, e))
  {
  }

  lemma TokensConsume(c: Code, e: Event)
    ensures AnswerTo(c, e).TokensFor? ==>
            Apply(c, e).consumed && c.status.Authorized? && c.bound == Some(AnswerTo(c, e).user)
    ensures c.consumed || c.status.Denied? ==> !AnswerTo(c, e).TokensFor?
  {
  }

  /** Tokens are given to a poll by the code's client that reads its clock no later than the expiry. */
  lemma TokensInTime(c: Code, effects: seq<Option<Event>>, k: nat)
    requires k < |effects| && Answered(c, effects, k).TokensFor?
    ensures effects[k].Some? && effects[k].value.Poll?
    ensures effects[k].value.client == c.client && effects[k].value.now <= c.expires
  {
    assert effects[..0] == [];
    SteadyBetween(c, effects, 0, k);
    var e := effects[k].value;
    if e.Poll? {
      AnswerMeans(Before(c, effects, k), e.client, e.start, e.now);
    }
  }

  lemma OnlyApprovalAuthorizes(c: Code, e: Event)
    requires !c.status.Authorized? && Apply(c, e).status.Authorized?
    ensures e.Approve? && Open(c, e.now) && Apply(c, e).bound == Some(e.user)
  {
  }

  lemma {:induction false} SteadyBetween(c: Code, effects: seq<Option<Event>>, j: nat, k: nat)
    requires j <= k <= |effects|
    ensures Kept(Before(c, effects, j), Before(c, effects, k))
    decreases k - j
  {
    if j < k {
      SteadyBetween(c, effects, j, k - 1);
      BeforeNext(c, effects, k - 1);
      if effects[k - 1].Some? {
        StepKeeps(Before(c, effects, k - 1), effects[k - 1].value);
      }
    }
  }

  /** A code yields tokens once. */
  lemma TokensOnce(c: Code, effects: seq<Option<Event>>, j: nat, k: nat)
    requires j < k < |effects| && Answered(c, effects, j).TokensFor?
    ensures !Answered(c, effects, k).TokensFor?
  {
    TokensConsume(Before(c, effects, j), effects[j].value);
    BeforeNext(c, effects, j);
    SteadyBetween(c, effects, j + 1, k);
    if effects[k].Some? {
      TokensConsume(Before(c, effects, k), effects[k].value);
    }
  }

  /** After a denial that took effect, or a revocation, no poll gets tokens. */
  lemma EndedForGood(c: Code, effects: seq<Option<Event>>, j: nat, k: nat)
    requires j < k < |effects|
    requires effects[j] == Some(Revoke) ||
             (effects[j].Some? && effects[j].value.Deny? && Open(Before(c, effects, j), effects[j].value.now))
    ensures !Answered(c, effects, k).TokensFor?
  {
    BeforeNext(c, effects, j);
    SteadyBetween(c, effects, j + 1, k);
    if effects[k].Some? {
      TokensConsume(Before(c, effects, k), effects[k].value);
    }
  }

  /** The call that finds a code not authorized and leaves it so is an approval in time. */
  lemma Approval(c: Code, effects: seq<Option<Event>>, j: nat)
    requires j < |effects| && !Before(c, effects, j).status.Authorized? && Before(c, effects, j + 1).status.Authorized?
    ensures effects[j].Some? && effects[j].value.Approve? && Open(Before(c, effects, j), effects[j].value.now)
    ensures Before(c, effects, j + 1).bound == Some(effects[j].value.user)
  {
    BeforeNext(c, effects, j);
    OnlyApprovalAuthorizes(Before(c, effects, j), effects[j].value);
  }

  lemma SameBound(c: Code, effects: seq<Option<Event>>, j: nat)
    requires j < |effects| && Before(c, effects, j).status.Authorized?
    ensures Before(c, effects, j + 1).bound == Before(c, effects, j).bound
  {
    SteadyBetween(c, effects, j, j + 1);
  }

  /** Tokens are for the user of an approval that found the code pending and not expired. */
  lemma {:induction false} ApprovalOf(c: Code, effects: seq<Option<Event>>, k: nat) returns (j: nat)
    requires c.status.Pending? && k <= |effects| && Before(c, effects, k).status.Authorized?
    ensures j < k && effects[j].Some? && effects[j].value.Approve? &&
            Before(c, effects, k).bound == Some(effects[j].value.user)
    ensures effects[j].value.now <= c.expires && Before(c, effects, j).status.Pending?
    decreases k
  {
    assert effects[..0] == [];
    if Before(c, effects, k - 1).status.Authorized? {
      j := ApprovalOf(c, effects, k - 1);
      SameBound(c, effects, k - 1);
    } else {
      j := k - 1;
      Approval(c, effects, j);
      SteadyBetween(c, effects, 0, j);
    }
  }

  lemma ApprovedBefore(c: Code, effects: seq<Option<Event>>, k: nat) returns (j: nat)
    requires c.status.Pending? && k < |effects| && Answered(c, effects, k).TokensFor?
    ensures j < k && effects[j].Some? && effects[j].value.Approve? &&
            effects[j].value.user == Answered(c, effects, k).user
    ensures effects[j].value.now <= c.expires && Before(c, effects, j).status.Pending?
  {
    TokensConsume(Before(c, effects, k), effects[k].value);
    j := ApprovalOf(c, effects, k);
  }
}
