/** Refresh-token rotation of sign-in sessions, in transactions interleaved step by step. */
module AuthRefresh {
  import opened Wrappers

  type Id = nat

  datatype User = User(suspended: bool, deleted: bool)

  datatype Session = Session(user: Id, revoked: bool)

  datatype Token = Token(id: Id, session: Id, expires: int, used: bool, replacedBy: Option<Id>)

  datatype Reset = Reset(user: Id, expires: int, used: bool)

  /** What the joined read of Refresh took from the session and user rows. */
  datatype Snapshot = Snapshot(sessionRevoked: bool, userBlocked: bool)

  /**
   * A call of Refresh in its transaction. The read joins three tables on one snapshot; then it waits for
   * the token's row and sees that row, and only that row, as it is when the lock is granted.
   */
  datatype Call =
    | Waiting(token: Id, seen: Snapshot)
    | Holding(token: Id, seen: Snapshot, row: Token)

  /** A successful refresh: the call, the token presented, its session. */
  datatype Success = Success(call: nat, token: Id, session: Id)

  /** Committed rows, calls of Refresh under way, how many ever began, and the successful ones. */
  datatype State = State(
    users: map<Id, User>,
    sessions: map<Id, Session>,
    tokens: seq<Token>,
    resets: map<Id, Reset>,
    calls: map<nat, Call>,
    begun: nat,
    log: seq<Success>)

  const INIT: State := State(map[], map[], [], map[], map[], 0, [])

  datatype Action =
    | Signup(user: Id, session: Id, token: Id, expires: int)
    | IssuePair(user: Id, session: Id, token: Id, expires: int)
    | Read(token: Id)
    | LockRow(call: nat)
    | Finish(call: nat, now: int, newToken: Id, expires: int)
    | Abort(call: nat)
    | Logout(session: Id)
    | RequestReset(reset: Id, user: Id, expires: int)
    | ConfirmReset(reset: Id, now: int)
    | SetUser(user: Id, row: User)
    | Purge(user: Id)

  // ---------------------------------------------------------------------------------------
  // Rows
  // ---------------------------------------------------------------------------------------

  function IndexOf(tokens: seq<Token>, id: Id): (k: nat)
    ensures k <= |tokens|
    ensures k < |tokens| ==> tokens[k].id == id
    ensures forall i :: 0 <= i < k ==> tokens[i].id != id
  {
    if tokens == [] || tokens[0].id == id then 0 else 1 + IndexOf(tokens[1..], id)
  }

  predicate HasToken(s: State, id: Id) {
    IndexOf(s.tokens, id) < |s.tokens|
  }

  function TokenRow(s: State, id: Id): Token
    requires HasToken(s, id)
  {
    s.tokens[IndexOf(s.tokens, id)]
  }

  /** Every token belongs to a session and every session to a user: the foreign keys. */
  predicate KeysHold(s: State) {
    && (forall i :: 0 <= i < |s.tokens| ==> s.tokens[i].session in s.sessions)
    && forall sid :: sid in s.sessions ==> s.sessions[sid].user in s.users
  }

  predicate Blocked(u: User) {
    u.deleted || u.suspended
  }

  function SnapshotOf(s: State, id: Id): Snapshot
    requires KeysHold(s) && HasToken(s, id)
  {
    var session := s.sessions[TokenRow(s, id).session];
    Snapshot(session.revoked, Blocked(s.users[session.user]))
  }

  // ---------------------------------------------------------------------------------------
  // Steps
  // ---------------------------------------------------------------------------------------

  datatype Verdict = SessionRevoked | UserBlocked | Expired | Reused | Rotated

  /** The checks of Refresh, in their order. */
  function Judge(call: Call, now: int): Verdict
    requires call.Holding?
  {
    if call.seen.sessionRevoked then SessionRevoked
    else if call.seen.userBlocked then UserBlocked
    else if now > call.row.expires then Expired
    else if call.row.used then Reused
    else Rotated
  }

  predicate RowFree(s: State, token: Id) {
    forall c :: c in s.calls && s.calls[c].Holding? ==> s.calls[c].token != token
  }

  /** A step that can be taken; the foreign keys hold always, rows are never deleted, new ids are unused. */
  predicate Enabled(s: State, a: Action) {
    && KeysHold(s)
    && match a
       case Signup(user, session, token, _) => user !in s.users && session !in s.sessions && !HasToken(s, token)
       case IssuePair(user, session, token, _) => user in s.users && session !in s.sessions && !HasToken(s, token)
       case Read(token) => HasToken(s, token)
       case LockRow(c) =>
         c in s.calls && s.calls[c].Waiting? && HasToken(s, s.calls[c].token) && RowFree(s, s.calls[c].token)
       case Finish(c, _, newToken, _) =>
         && c in s.calls && s.calls[c].Holding? && HasToken(s, s.calls[c].token)
         && s.calls[c].row.session in s.sessions && !HasToken(s, newToken)
       case Abort(c) => c in s.calls
       case Logout(_) => true
       case RequestReset(reset, user, _) => reset !in s.resets && user in s.users
       case ConfirmReset(reset, now) => reset in s.resets && !s.resets[reset].used && now <= s.resets[reset].expires
       case SetUser(user, _) => user in s.users
       case Purge(user) => user in s.users
  }

  function NewSession(s: State, user: Id, session: Id, token: Id, expires: int): State {
    s.(sessions := s.sessions[session := Session(user, false)],
       tokens := s.tokens + [Token(token, session, expires, false, None)])
  }

  function Revoke(s: State, session: Id): State {
    if session in s.sessions then s.(sessions := s.sessions[session := s.sessions[session].(revoked := true)]) else s
  }

  function RevokeAllOf(sessions: map<Id, Session>, user: Id): map<Id, Session> {
    map sid | sid in sessions :: if sessions[sid].user == user then sessions[sid].(revoked := true) else sessions[sid]
  }

  /** The row marked used and replaced, the new row inserted. */
  function Rotate(tokens: seq<Token>, id: Id, newToken: Id, expires: int): seq<Token>
    requires IndexOf(tokens, id) < |tokens|
  {
    var k := IndexOf(tokens, id);
    tokens[k := tokens[k].(used := true, replacedBy := Some(newToken))]
      + [Token(newToken, tokens[k].session, expires, false, None)]
  }

  function AfterRotation(s: State, c: nat, call: Call, newToken: Id, expires: int): State
    requires call.Holding? && HasToken(s, call.token)
  {
    s.(calls := s.calls - {c},
       tokens := Rotate(s.tokens, call.token, newToken, expires),
       log := s.log + [Success(c, call.token, call.row.session)])
  }

  function Do(s: State, a: Action): State
    requires Enabled(s, a)
  {
    match a
    case Signup(user, session, token, expires) =>
      NewSession(s.(users := s.users[user := User(false, false)]), user, session, token, expires)
    case IssuePair(user, session, token, expires) => NewSession(s, user, session, token, expires)
    case Read(token) => s.(calls := s.calls[s.begun := Waiting(token, SnapshotOf(s, token))], begun := s.begun + 1)
    case LockRow(c) =>
      s.(calls := s.calls[c := Holding(s.calls[c].token, s.calls[c].seen, TokenRow(s, s.calls[c].token))])
    case Finish(c, now, newToken, expires) =>
      var call := s.calls[c];
      var done := s.(calls := s.calls - {c});
      (match Judge(call, now)
       case Rotated => AfterRotation(s, c, call, newToken, expires)
       case Reused => Revoke(done, call.row.session)
       case _ => done)
    case Abort(c) => s.(calls := s.calls - {c})
    case Logout(session) => Revoke(s, session)
    case RequestReset(reset, user, expires) => s.(resets := s.resets[reset := Reset(user, expires, false)])
    case ConfirmReset(reset, now) =>
      s.(resets := s.resets[reset := s.resets[reset].(used := true)],
         sessions := RevokeAllOf(s.sessions, s.resets[reset].user))
    case SetUser(user, row) => s.(users := s.users[user := row])
    case Purge(user) => s.(users := s.users[user := User(false, true)], sessions := RevokeAllOf(s.sessions, user))
  }

  function Run(s: State, actions: seq<Action>): Option<State>
    decreases |actions|
  {
    if actions == [] then Some(s)
    else if Enabled(s, actions[0]) then Run(Do(s, actions[0]), actions[1..])
    else None
  }

  // ---------------------------------------------------------------------------------------
  // The invariant
  // ---------------------------------------------------------------------------------------

  /** A session's tokens in the order they were inserted. */
  function OfSession(tokens: seq<Token>, sid: Id): seq<Token> {
    if tokens == [] then []
    else
      var last := tokens[|tokens| - 1];
      OfSession(tokens[..|tokens| - 1], sid) + if last.session == sid then [last] else []
  }

  /** The tokens of a session's successful refreshes, in order. */
  function Refreshed(log: seq<Success>, sid: Id): seq<Id> {
    if log == [] then []
    else
      var last := log[|log| - 1];
      Refreshed(log[..|log| - 1], sid) + if last.session == sid then [last.token] else []
  }

  function Ids(tokens: seq<Token>): (r: seq<Id>)
    ensures |r| == |tokens| && forall i :: 0 <= i < |r| ==> r[i] == tokens[i].id
  {
    seq(|tokens|, i requires 0 <= i < |tokens| => tokens[i].id)
  }

  /** One chain: each token but the last is used and replaced by the next, and the last is unused. */
  predicate Linked(c: seq<Token>) {
    && c != []
    && (forall i :: 0 <= i < |c| - 1 ==> c[i].used && c[i].replacedBy == Some(c[i + 1].id))
    && !c[|c| - 1].used && c[|c| - 1].replacedBy.None?
  }

  /** The session's tokens form a chain, and the refreshed ones are all but the last of it. */
  predicate SessionOk(s: State, sid: Id) {
    var c := OfSession(s.tokens, sid);
    Linked(c) && Refreshed(s.log, sid) == Ids(c)[..|c| - 1]
  }

  predicate DistinctTokens(tokens: seq<Token>) {
    forall i, j :: 0 <= i < j < |tokens| ==> tokens[i].id != tokens[j].id
  }

  /** A locked row stays as it was read, and one call holds it. */
  predicate CallOk(s: State, c: nat) {
    && c in s.calls && c < s.begun && HasToken(s, s.calls[c].token)
    && (s.calls[c].Holding? ==>
          && s.calls[c].row == TokenRow(s, s.calls[c].token)
          && forall d :: d in s.calls && d != c && s.calls[d].Holding? ==> s.calls[d].token != s.calls[c].token)
  }

  predicate Inv(s: State) {
    && KeysHold(s) && DistinctTokens(s.tokens)
    && (forall sid :: sid in s.sessions ==> SessionOk(s, sid))
    && (forall c :: c in s.calls ==> CallOk(s, c))
    && forall i :: 0 <= i < |s.log| ==> s.log[i].session in s.sessions
  }

  lemma {:induction false} OfSessionAppend(a: seq<Token>, b: seq<Token>, sid: Id)
    ensures OfSession(a + b, sid) == OfSession(a, sid) + OfSession(b, sid)
  {
    if b == [] {
      assert a + b == a;
    } else {
      OfSessionAppend(a, b[..|b| - 1], sid);
      assert (a + b)[..|a + b| - 1] == a + b[..|b| - 1];
    }
  }

  lemma OfSessionOne(t: Token, sid: Id)
    ensures OfSession([t], sid) == if t.session == sid then [t] else []
  {
    assert OfSession([t], sid) == OfSession([], sid) + if t.session == sid then [t] else [];
  }

  lemma {:induction false} OfSessionNone(tokens: seq<Token>, sid: Id)
    requires forall i :: 0 <= i < |tokens| ==> tokens[i].session != sid
    ensures OfSession(tokens, sid) == []
  {
    if tokens != [] {
      OfSessionNone(tokens[..|tokens| - 1], sid);
    }
  }

  lemma {:induction false} RefreshedNone(log: seq<Success>, sid: Id)
    requires forall i :: 0 <= i < |log| ==> log[i].session != sid
    ensures Refreshed(log, sid) == []
  {
    if log != [] {
      RefreshedNone(log[..|log| - 1], sid);
    }
  }

  /** The place of row k in its session. */
  lemma OfSessionSplit(tokens: seq<Token>, k: nat, sid: Id)
    requires k < |tokens|
    ensures OfSession(tokens, sid) ==
            OfSession(tokens[..k], sid) + (OfSession([tokens[k]], sid) + OfSession(tokens[k + 1..], sid))
  {
    assert tokens == tokens[..k] + ([tokens[k]] + tokens[k + 1..]);
    OfSessionAppend(tokens[..k], [tokens[k]] + tokens[k + 1..], sid);
    OfSessionAppend([tokens[k]], tokens[k + 1..], sid);
  }

  lemma LinkedTail(a: seq<Token>, t: Token, b: seq<Token>)
    requires Linked(a + ([t] + b)) && !t.used
    ensures b == []
  {
    assert (a + ([t] + b))[|a|] == t;
  }

  lemma LinkedStep(a: seq<Token>, t: Token, u: Token)
    requires Linked(a + [t]) && !u.used && u.replacedBy.None?
    ensures Linked(a + ([t.(used := true, replacedBy := Some(u.id))] + [u]))
    ensures Ids(a + [t]) == Ids(a + [t.(used := true, replacedBy := Some(u.id))])
  {
    var c, d := a + [t], a + ([t.(used := true, replacedBy := Some(u.id))] + [u]);
    forall i | 0 <= i < |d| - 1 ensures d[i].used && d[i].replacedBy == Some(d[i + 1].id) {
      if i < |a| {
        assert c[i] == d[i] && c[i + 1].id == d[i + 1].id;
      }
    }
  }

  /** A rotated table, session by session. */
  lemma RotatedOther(tokens: seq<Token>, id: Id, newToken: Id, expires: int, sid: Id)
    requires IndexOf(tokens, id) < |tokens|
    ensures var k := IndexOf(tokens, id);
            var t := tokens[k];
            var t' := t.(used := true, replacedBy := Some(newToken));
            var u := Token(newToken, t.session, expires, false, None);
            OfSession(Rotate(tokens, id, newToken, expires), sid) ==
              if t.session == sid then
                (OfSession(tokens[..k], sid) + ([t'] + OfSession(tokens[k + 1..], sid))) + [u]
              else OfSession(tokens, sid)
  {
    var k := IndexOf(tokens, id);
    var t := tokens[k];
    var t', u := t.(used := true, replacedBy := Some(newToken)), Token(newToken, t.session, expires, false, None);
    var marked := tokens[k := t'];
    OfSessionAppend(marked, [u], sid);
    OfSessionSplit(tokens, k, sid);
    OfSessionSplit(marked, k, sid);
    assert marked[..k] == tokens[..k] && marked[k + 1..] == tokens[k + 1..];
    OfSessionOne(t, sid);
    OfSessionOne(t', sid);
    OfSessionOne(u, sid);
  }

  /** The row of an unused token is the last of its session. */
  lemma LastOfChain(tokens: seq<Token>, k: nat)
    requires k < |tokens| && !tokens[k].used && Linked(OfSession(tokens, tokens[k].session))
    ensures var sid := tokens[k].session;
            OfSession(tokens[k + 1..], sid) == [] && OfSession(tokens, sid) == OfSession(tokens[..k], sid) + [tokens[k]]
  {
    var sid := tokens[k].session;
    var a, b := OfSession(tokens[..k], sid), OfSession(tokens[k + 1..], sid);
    OfSessionSplit(tokens, k, sid);
    OfSessionOne(tokens[k], sid);
    LinkedTail(a, tokens[k], b);
    assert [tokens[k]] + [] == [tokens[k]];
  }

  lemma LongerIds(a: seq<Token>, t: Token, t': Token, u: Token)
    requires t'.id == t.id
    ensures Ids(a + ([t'] + [u]))[..|a + [t]|] == Ids(a + [t])
  {
  }

  /** What a rotation does to the chain of its session. */
  lemma RotatedChain(tokens: seq<Token>, id: Id, newToken: Id, expires: int)
    requires IndexOf(tokens, id) < |tokens|
    requires var t := tokens[IndexOf(tokens, id)]; !t.used && Linked(OfSession(tokens, t.session))
    ensures var t := tokens[IndexOf(tokens, id)];
            var c, d := OfSession(tokens, t.session), OfSession(Rotate(tokens, id, newToken, expires), t.session);
            Linked(d) && |d| == |c| + 1 && c[|c| - 1] == t && Ids(d)[..|c|] == Ids(c)
  {
    var k := IndexOf(tokens, id);
    var t := tokens[k];
    var a := OfSession(tokens[..k], t.session);
    var t', u := t.(used := true, replacedBy := Some(newToken)), Token(newToken, t.session, expires, false, None);
    LastOfChain(tokens, k);
    RotatedOther(tokens, id, newToken, expires, t.session);
    assert (a + ([t'] + [])) + [u] == a + ([t'] + [u]);
    LinkedStep(a, t, u);
    LongerIds(a, t, t', u);
  }
}
