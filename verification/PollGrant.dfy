/** One code that a client polls while a user decides: the machine the device grant and CIBA share. */
module PollGrant {
  import opened Wrappers

  type Id = nat

  datatype Status = Pending | Authorized | Denied

  /** Times are in microseconds. */
  datatype Code = Code(
    client: string, status: Status, bound: Option<Id>, interval: nat, lastPolled: Option<int>, expires: int,
    consumed: bool)

  /** A poll's transaction starts at one time, which its touch records, and reads the clock at a later one. */
  datatype Event =
    | Approve(user: Id, now: int)
    | Deny(now: int)
    | Revoke
    | Poll(client: string, start: int, now: int)

  datatype Answer =
    | NoAnswer | InvalidGrant | SlowDown | ExpiredToken | AuthorizationPending | AccessDenied | TokensFor(user: Id)

  /** A user's decision. */
  function Choice(user: Id, approve: bool, now: int): Event {
    if approve then Approve(user, now) else Deny(now)
  }

  predicate Open(c: Code, now: int) {
    c.status.Pending? && now <= c.expires
  }

  /** The poll is for this code's client and the code is not consumed: it is counted by the throttle. */
  predicate Reaches(c: Code, e: Event) {
    e.Poll? && e.client == c.client && !c.consumed
  }

  predicate Throttled(c: Code, e: Event)
    requires e.Poll?
  {
    c.lastPolled.Some? && e.now - c.lastPolled.value < c.interval
  }

  predicate Passes(c: Code, e: Event) {
    Reaches(c, e) && !Throttled(c, e)
  }

  function AnswerTo(c: Code, e: Event): Answer {
    if !e.Poll? then NoAnswer
    else if !Reaches(c, e) then InvalidGrant
    else if Throttled(c, e) then SlowDown
    else if e.now > c.expires then ExpiredToken
    else match c.status
         case Pending => AuthorizationPending
         case Denied => AccessDenied
         case Authorized => if c.bound.None? then InvalidGrant else TokensFor(c.bound.value)
  }

  /** What a poll of a code answers, on the fields of the row it finds. */
  predicate PollAnswers(c: Code, client: string, now: int, answer: Answer) {
    var counted := client == c.client && !c.consumed;
    var early := c.lastPolled.Some? && now < c.lastPolled.value + c.interval;
    var passes := counted && !early;
    var inTime := passes && now <= c.expires;
    && (answer == InvalidGrant <==> !counted || (inTime && c.status == Authorized && c.bound == None))
    && (answer == SlowDown <==> counted && early)
    && (answer == ExpiredToken <==> passes && c.expires < now)
    && (answer == AuthorizationPending <==> inTime && c.status == Pending)
    && (answer == AccessDenied <==> inTime && c.status == Denied)
    && (answer.TokensFor? <==> inTime && c.status == Authorized && c.bound.Some?)
    && (answer.TokensFor? ==> Some(answer.user) == c.bound)
  }

  /** What it leaves: its start as the time of the last poll, and the code consumed if it gave tokens. */
  predicate PollLeaves(c: Code, start: int, answer: Answer, c': Code) {
    c' == if answer == InvalidGrant then c
          else c.(lastPolled := Some(start), consumed := c.consumed || answer.TokensFor?)
  }

  lemma AnswerMeans(c: Code, client: string, start: int, now: int)
    ensures PollAnswers(c, client, now, AnswerTo(c, Poll(client, start, now)))
    ensures PollLeaves(c, start, AnswerTo(c, Poll(client, start, now)), Apply(c, Poll(client, start, now)))
  {
  }

  function Apply(c: Code, e: Event): Code {
    match e
    case Approve(user, now) => if Open(c, now) then c.(status := Authorized, bound := Some(user)) else c
    case Deny(now) => if Open(c, now) then c.(status := Denied) else c
    case Revoke => c.(status := Denied)
    case Poll(_, start, _) =>
      match AnswerTo(c, e)
      case InvalidGrant => c
      case TokensFor(_) => c.(lastPolled := Some(start), consumed := true)
      case _ => c.(lastPolled := Some(start))
  }

  function After(c: Code, events: seq<Event>): Code {
    if events == [] then c else Apply(After(c, events[..|events| - 1]), events[|events| - 1])
  }

  lemma {:induction false} Steady(c: Code, events: seq<Event>)
    ensures var d := After(c, events);
            && d.client == c.client && d.interval == c.interval && d.expires == c.expires
            && (c.consumed ==> d.consumed) && (c.status.Denied? ==> d.status.Denied?)
            && (c.status.Authorized? ==> !d.status.Pending? && d.bound == c.bound)
  {
    if events != [] {
      Steady(c, events[..|events| - 1]);
    }
  }

  // ---------------------------------------------------------------------------------------
  // The throttle
  // ---------------------------------------------------------------------------------------

  /** An approval always binds a user, so no poll is turned away after the throttle without a touch. */
  predicate BoundWhenAuthorized(c: Code) {
    c.status.Authorized? ==> c.bound.Some?
  }

  lemma {:induction false} StaysBound(c: Code, events: seq<Event>)
    requires BoundWhenAuthorized(c)
    ensures BoundWhenAuthorized(After(c, events))
  {
    if events != [] {
      StaysBound(c, events[..|events| - 1]);
    }
  }

  predicate ReachesAt(c: Code, events: seq<Event>, k: nat)
    requires k < |events|
  {
    Reaches(After(c, events[..k]), events[k])
  }

  /** Between two polls that reach the throttle with none between, the clock of the first stays recorded. */
  lemma {:induction false} LastTouch(c: Code, events: seq<Event>, i: nat, k: nat)
    requires BoundWhenAuthorized(c) && i < k <= |events| && ReachesAt(c, events, i)
    requires forall m :: i < m < k ==> !ReachesAt(c, events, m)
    ensures After(c, events[..k]).lastPolled == Some(events[i].start)
    decreases k
  {
    StaysBound(c, events[..k - 1]);
    assert events[..k][..k - 1] == events[..k - 1];
    if k > i + 1 {
      LastTouch(c, events, i, k - 1);
      assert !ReachesAt(c, events, k - 1);
    }
  }

  /**
   * Of two polls that reach the throttle with none between, the second passes if and only if the interval
   * separates it from the start of the first, whatever answer that one got.
   */
  lemma PassesIffAfterInterval(c: Code, events: seq<Event>, i: nat, k: nat)
    requires BoundWhenAuthorized(c) && i < k < |events| && ReachesAt(c, events, i) && ReachesAt(c, events, k)
    requires forall m :: i < m < k ==> !ReachesAt(c, events, m)
    ensures Passes(After(c, events[..k]), events[k]) <==> events[k].now - events[i].start >= c.interval
  {
    LastTouch(c, events, i, k);
    Steady(c, events[..k]);
  }

  /** How many polls pass before the code expires. */
  function PassCount(c: Code, events: seq<Event>): nat {
    if events == [] then 0
    else
      var init, last := events[..|events| - 1], events[|events| - 1];
      PassCount(c, init) + if last.Poll? && Passes(After(c, init), last) && last.now <= c.expires then 1 else 0
  }

  /** Polls read a clock that does not go back, from a given time on, at most a given lag after they started. */
  predicate Timely(events: seq<Event>, created: int, lag: nat) {
    && (forall k :: 0 <= k < |events| && events[k].Poll? ==>
          created <= events[k].now && events[k].start <= events[k].now <= events[k].start + lag)
    && forall i, k :: 0 <= i < k < |events| && events[i].Poll? && events[k].Poll? ==> events[i].now <= events[k].now
  }

  lemma {:induction false} PassTimes(c: Code, events: seq<Event>, created: int, lag: nat) returns (latest: int)
    requires BoundWhenAuthorized(c) && Timely(events, created, lag)
    ensures PassCount(c, events) > 0 ==>
              && After(c, events).lastPolled.Some? && latest <= After(c, events).lastPolled.value + lag
              && created + (PassCount(c, events) - 1) * (c.interval - lag) <= latest <= c.expires
    ensures PassCount(c, events) > 0 ==> exists i :: 0 <= i < |events| && events[i].Poll? && events[i].now == latest
  {
    latest := created;
    if events != [] {
      var n := |events| - 1;
      var init, last := events[..n], events[n];
      latest := PassTimes(c, init, created, lag);
      StaysBound(c, init);
      Steady(c, init);
      var d := After(c, init);
      if last.Poll? && Passes(d, last) && last.now <= c.expires {
        if PassCount(c, init) > 0 {
          NextPass(PassCount(c, init), c.interval - lag, created, latest, last.now);
        }
        latest := last.now;
      } else if PassCount(c, init) > 0 {
        var i :| 0 <= i < |init| && init[i].Poll? && init[i].now == latest;
        assert events[i].now == latest;
      }
    }
  }

  lemma NextPass(n: int, gap: int, created: int, latest: int, now: int)
    requires n > 0 && created + (n - 1) * gap <= latest && latest + gap <= now
    ensures created + n * gap <= now
  {
    assert (n - 1) * gap + gap == n * gap;
  }

  /** How many polls pass before expiry, given how far a poll's reading the clock lags behind its start. */
  lemma PassRate(c: Code, events: seq<Event>, created: int, lag: nat)
    requires BoundWhenAuthorized(c) && Timely(events, created, lag) && PassCount(c, events) > 0
    ensures (PassCount(c, events) - 1) * (c.interval - lag) <= c.expires - created
  {
    var _ := PassTimes(c, events, created, lag);
  }

  const SECOND: nat := 1000000
  const POLL_INTERVAL: nat := 5 * SECOND
  const CODE_TTL: nat := 600 * SECOND

  function NewCode(client: string, user: Option<Id>, created: int): Code {
    Code(client, Pending, user, POLL_INTERVAL, None, created + CODE_TTL, false)
  }

  /** At most 121 polls pass when each reads the clock as it starts. */
  lemma AtMost121(client: string, user: Option<Id>, created: int, events: seq<Event>)
    requires Timely(events, created, 0)
    ensures PassCount(NewCode(client, user, created), events) <= 121
  {
    var c := NewCode(client, user, created);
    if PassCount(c, events) > 0 {
      PassRate(c, events, created, 0);
    }
  }

  function SteadyPoll(client: string, i: nat): Event {
    Poll(client, i * POLL_INTERVAL, i * POLL_INTERVAL)
  }

  function SteadyPolls(client: string, n: nat): seq<Event> {
    if n == 0 then [] else SteadyPolls(client, n - 1) + [SteadyPoll(client, n - 1)]
  }

  function PolledSteadily(client: string, n: nat): Code {
    NewCode(client, None, 0).(lastPolled := if n == 0 then None else Some((n - 1) * POLL_INTERVAL))
  }

  lemma OneSteadyPoll(client: string, n: nat)
    requires n < 121
    ensures Passes(PolledSteadily(client, n), SteadyPoll(client, n)) && SteadyPoll(client, n).now <= CODE_TTL
    ensures Apply(PolledSteadily(client, n), SteadyPoll(client, n)) == PolledSteadily(client, n + 1)
  {
  }

  lemma Snoc(c: Code, init: seq<Event>, e: Event)
    ensures After(c, init + [e]) == Apply(After(c, init), e)
    ensures PassCount(c, init + [e]) ==
            PassCount(c, init) + if e.Poll? && Passes(After(c, init), e) && e.now <= c.expires then 1 else 0
  {
    assert (init + [e])[..|init|] == init;
  }

  /** A client that polls every five seconds gets all 121. */
  lemma {:induction false} SteadyPollsPass(client: string, n: nat)
    requires n <= 121
    ensures PassCount(NewCode(client, None, 0), SteadyPolls(client, n)) == n
    ensures After(NewCode(client, None, 0), SteadyPolls(client, n)) == PolledSteadily(client, n)
  {
    if n > 0 {
      SteadyPollsPass(client, n - 1);
      OneSteadyPoll(client, n - 1);
      Snoc(NewCode(client, None, 0), SteadyPolls(client, n - 1), SteadyPoll(client, n - 1));
    }
  }

  /** Polls that started together and waited for the row an interval long. */
  function WaitingPolls(client: string, created: int, n: nat): seq<Event> {
    seq(n, i => Poll(client, created, created + POLL_INTERVAL))
  }

  function WaitedOn(client: string, user: Option<Id>, created: int, n: nat): Code {
    NewCode(client, user, created).(lastPolled := if n == 0 then None else Some(created))
  }

  lemma OneWaitingPoll(client: string, user: Option<Id>, created: int, n: nat)
    ensures var c, e := WaitedOn(client, user, created, n), Poll(client, created, created + POLL_INTERVAL);
            Passes(c, e) && e.now <= c.expires && Apply(c, e) == WaitedOn(client, user, created, n + 1)
  {
  }

  lemma WaitingPollsTimely(client: string, created: int, n: nat, lag: nat)
    requires lag >= POLL_INTERVAL
    ensures Timely(WaitingPolls(client, created, n), created, lag)
  {
  }

  /** They are measured from their start, so all of them pass, however many. */
  lemma {:induction false} WaitingPollsPass(client: string, user: Option<Id>, created: int, n: nat)
    ensures PassCount(NewCode(client, user, created), WaitingPolls(client, created, n)) == n
    ensures After(NewCode(client, user, created), WaitingPolls(client, created, n)) ==
            WaitedOn(client, user, created, n)
  {
    if n > 0 {
      WaitingPollsPass(client, user, created, n - 1);
      OneWaitingPoll(client, user, created, n - 1);
      assert WaitingPolls(client, created, n) ==
             WaitingPolls(client, created, n - 1) + [Poll(client, created, created + POLL_INTERVAL)];
      Snoc(NewCode(client, user, created), WaitingPolls(client, created, n - 1),
           Poll(client, created, created + POLL_INTERVAL));
    }
  }

  /** No more than this many of a new code's polls pass when they lag by at most so much. */
  ghost predicate Bounds(client: string, user: Option<Id>, created: int, lag: nat, bound: nat) {
    forall events :: Timely(events, created, lag) ==> PassCount(NewCode(client, user, created), events) <= bound
  }

  lemma CountBelow(n: nat, gap: nat, total: nat)
    requires n > 0 && gap > 0 && (n - 1) * gap <= total
    ensures n <= total + 1
  {
    assert (n - 1) * gap == (n - 1) * (gap - 1) + (n - 1) && (n - 1) * (gap - 1) >= 0;
  }

  /** The throttle bounds the number of polls that pass if and only if every poll lags by less than the interval. */
  lemma BoundedIff(client: string, user: Option<Id>, created: int, lag: nat)
    ensures (exists bound: nat :: Bounds(client, user, created, lag, bound)) <==> lag < POLL_INTERVAL
  {
    if lag < POLL_INTERVAL {
      forall events | Timely(events, created, lag)
        ensures PassCount(NewCode(client, user, created), events) <= CODE_TTL + 1
      {
        var n := PassCount(NewCode(client, user, created), events);
        if n > 0 {
          PassRate(NewCode(client, user, created), events, created, lag);
          CountBelow(n, POLL_INTERVAL - lag, CODE_TTL);
        }
      }
      assert Bounds(client, user, created, lag, CODE_TTL + 1);
    } else {
      forall bound: nat ensures !Bounds(client, user, created, lag, bound) {
        WaitingPollsTimely(client, created, bound + 1, lag);
        WaitingPollsPass(client, user, created, bound + 1);
      }
    }
  }
}
