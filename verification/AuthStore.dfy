/** The session and token tables, and the statements that change them. */
module AuthStore {
  import opened Wrappers
  import opened AuthRefresh

  datatype RefreshError = UnknownToken | MustWait | Failed(why: Verdict)

  class Tables {
    var users: map<Id, User>
    var sessions: map<Id, Session>
    var tokens: seq<Token>
    var resets: map<Id, Reset>
    var calls: map<nat, Call>
    var begun: nat
    var log: seq<Success>

    function View(): State
      reads this
    {
      State(users, sessions, tokens, resets, calls, begun, log)
    }

    constructor ()
      ensures View() == INIT
    {
      users, sessions, tokens, resets, calls, begun, log := map[], map[], [], map[], map[], 0, [];
    }

    /** The signup transaction's inserts: user, session, token. */
    method Signup(user: Id, session: Id, token: Id, expires: int)
      requires Enabled(View(), Action.Signup(user, session, token, expires))
      modifies this
      ensures View() == Do(old(View()), Action.Signup(user, session, token, expires))
      ensures users == old(users)[user := User(suspended := false, deleted := false)]
      ensures sessions == old(sessions)[session := Session(user, revoked := false)]
      ensures tokens == old(tokens) + [Token(token, session, expires, used := false, replacedBy := None)]
    {
      users := users[user := User(false, false)];
      sessions := sessions[session := Session(user, false)];
      tokens := tokens + [Token(token, session, expires, false, None)];
    }

    method IssuePair(user: Id, session: Id, token: Id, expires: int)
      requires Enabled(View(), Action.IssuePair(user, session, token, expires))
      modifies this
      ensures View() == Do(old(View()), Action.IssuePair(user, session, token, expires))
      ensures users == old(users) && sessions == old(sessions)[session := Session(user, revoked := false)]
      ensures tokens == old(tokens) + [Token(token, session, expires, used := false, replacedBy := None)]
    {
      sessions := sessions[session := Session(user, false)];
      tokens := tokens + [Token(token, session, expires, false, None)];
    }

    /** Idempotent: an unknown or already revoked session is left as it is. */
    method Logout(session: Id)
      requires KeysHold(View())
      modifies this
      ensures View() == Do(old(View()), Action.Logout(session))
      ensures sessions == if session in old(sessions)
                          then old(sessions)[session := Session(old(sessions)[session].user, revoked := true)]
                          else old(sessions)
    {
      if session in sessions && !sessions[session].revoked {
        sessions := sessions[session := sessions[session].(revoked := true)];
      }
      assert sessions == Revoke(old(View()), session).sessions;
    }

    /** A reset token works once and in time; it revokes every session of its user. */
    method ConfirmPasswordReset(reset: Id, now: int) returns (ok: bool)
      requires KeysHold(View())
      modifies this
      ensures ok == Enabled(old(View()), ConfirmReset(reset, now))
      ensures View() == if ok then Do(old(View()), ConfirmReset(reset, now)) else old(View())
      ensures ok <==> reset in old(resets) && !old(resets)[reset].used && now <= old(resets)[reset].expires
      ensures ok ==> resets == old(resets)[reset := old(resets)[reset].(used := true)]
      ensures ok ==> RevokedFor(old(sessions), sessions, old(resets)[reset].user)
      ensures !ok ==> View() == old(View())
    {
      if reset !in resets || resets[reset].used || now > resets[reset].expires {
        return false;
      }
      var user := resets[reset].user;
      resets := resets[reset := resets[reset].(used := true)];
      sessions := map sid | sid in sessions ::
        if sessions[sid].user == user then sessions[sid].(revoked := true) else sessions[sid];
      return true;
    }

    /** The purge of a user's data: the account is deleted and every session of it revoked. */
    method PurgeUser(user: Id)
      requires KeysHold(View())
      modifies this
      ensures View() == if user in old(users) then Do(old(View()), Purge(user)) else old(View())
      ensures user in old(users) ==> user in users && users[user].deleted
      ensures RevokedFor(old(sessions), sessions, user)
    {
      if user in users {
        users := users[user := User(false, true)];
      }
      sessions := map sid | sid in sessions ::
        if sessions[sid].user == user then sessions[sid].(revoked := true) else sessions[sid];
    }

    /** The joined read of Refresh. */
    method ReadJoined(token: Id) returns (call: Option<nat>)
      requires KeysHold(View())
      modifies this
      ensures (call.Some? <==> HasToken(old(View()), token))
      ensures call.None? ==> View() == old(View())
      ensures call.Some? ==> call.value == old(begun) && View() == Do(old(View()), Read(token))
      ensures forall k: nat :: IsRow(tokens, token, k) ==>
        call.Some? && calls[call.value] ==
            Waiting(token, Snapshot(SessionRevokedFor(View(), k), UserBlockedFor(View(), k)))
    {
      var k := IndexOf(tokens, token);
      if k == |tokens| {
        return None;
      }
      var session := sessions[tokens[k].session];
      var user := users[session.user];
      calls := calls[begun := Waiting(token, Snapshot(session.revoked, user.deleted || user.suspended))];
      begun := begun + 1;
      return Some(begun - 1);
    }

    /** The row lock of the same statement; false while another call holds the row. */
    method Acquire(call: nat) returns (ok: bool)
      requires KeysHold(View()) && call in calls && calls[call].Waiting? && HasToken(View(), calls[call].token)
      modifies this
      ensures ok == Enabled(old(View()), LockRow(call))
      ensures View() == if ok then Do(old(View()), LockRow(call)) else old(View())
    {
      ok := forall c :: c in calls && calls[c].Holding? ==> calls[c].token != calls[call].token;
      if ok {
        var row := tokens[IndexOf(tokens, calls[call].token)];
        calls := calls[call := Holding(calls[call].token, calls[call].seen, row)];
      }
    }

    /** The checks, the writes and the commit of Refresh. */
    method Complete(call: nat, now: int, newToken: Id, expires: int) returns (r: Result<Id, RefreshError>)
      requires Enabled(View(), Finish(call, now, newToken, expires))
      modifies this
      ensures View() == Do(old(View()), Finish(call, now, newToken, expires))
      ensures r == Reply(old(calls)[call], now, newToken)
    {
      var seen, row, token := calls[call].seen, calls[call].row, calls[call].token;
      ghost var held := calls[call];
      calls := calls - {call};
      if seen.sessionRevoked {
        return Err(Failed(SessionRevoked));
      }
      if seen.userBlocked {
        return Err(Failed(UserBlocked));
      }
      if now > row.expires {
        return Err(Failed(Expired));
      }
      if row.used {
        if row.session in sessions {
          sessions := sessions[row.session := sessions[row.session].(revoked := true)];
        }
        return Err(Failed(Reused));
      }
      MarkAndInsert(token, newToken, expires);
      log := log + [Success(call, token, row.session)];
      return Ok(newToken);
    }

    /** The new row inserted, the old one marked used and replaced by it. */
    method MarkAndInsert(token: Id, newToken: Id, expires: int)
      requires HasToken(View(), token) && !HasToken(View(), newToken)
      modifies this`tokens
      ensures tokens == Rotate(old(tokens), token, newToken, expires)
    {
      var k := IndexOf(tokens, token);
      tokens := tokens + [Token(newToken, tokens[k].session, expires, false, None)];
      tokens := tokens[k := tokens[k].(used := true, replacedBy := Some(newToken))];
    }

    /** A call of Refresh that no other call interrupts: a run of its three steps. */
    method Refresh(token: Id, now: int, newToken: Id, expires: int) returns (r: Result<Id, RefreshError>)
      requires KeysHold(View()) && !HasToken(View(), newToken)
      modifies this
      ensures r == Err(UnknownToken) <==> !HasToken(old(View()), token)
      ensures r == Err(UnknownToken) ==> View() == old(View())
      ensures r == Err(MustWait) ==> Run(old(View()), [Read(token)]) == Some(View()) && !RowFree(View(), token)
      ensures r.Ok? || r.error.Failed? ==>
        Run(old(View()), [Read(token), LockRow(old(begun)), Finish(old(begun), now, newToken, expires)]) == Some(View())
      ensures r.Ok? || r.error.Failed? ==> r == Reply(Presented(old(View()), token), now, newToken)
      ensures RefreshMeans(old(View()), View(), token, now, newToken, expires, r)
      ensures log == old(log) + if r.Ok? then [Success(old(begun), token, TokenRow(old(View()), token).session)] else []
    {
      ghost var s := View();
      r := RefreshSteps(token, now, newToken, expires);
      NoAnswerMeans(s, View(), token, now, newToken, expires);
      if r.Ok? || r.error.Failed? {
        ThreeRun(s, token, now, newToken, expires);
        AnswerMeans(s, token, now, newToken, expires, r);
      } else if r == Err(MustWait) {
        RunOne(s, Read(token));
      }
    }

    /** Its three steps. */
    method RefreshSteps(token: Id, now: int, newToken: Id, expires: int) returns (r: Result<Id, RefreshError>)
      requires KeysHold(View()) && !HasToken(View(), newToken)
      modifies this
      ensures r == Err(UnknownToken) <==> !HasToken(old(View()), token)
      ensures r == Err(UnknownToken) ==> View() == old(View())
      ensures r == Err(MustWait) ==>
        HasToken(old(View()), token) && View() == Do(old(View()), Read(token)) && !RowFree(View(), token)
      ensures r.Ok? || r.error.Failed? ==>
        && RowFree(Do(old(View()), Read(token)), token) && r == Reply(Presented(old(View()), token), now, newToken)
        && View() == AfterThree(old(View()), token, now, newToken, expires)
    {
      var call := ReadJoined(token);
      if call.None? {
        return Err(UnknownToken);
      }
      var ok := Acquire(call.value);
      if !ok {
        return Err(MustWait);
      }
      r := Complete(call.value, now, newToken, expires);
    }
  }

  /** The three steps of an uninterrupted call that has the row. */
  function AfterThree(s: State, token: Id, now: int, newToken: Id, expires: int): State
    requires KeysHold(s) && HasToken(s, token) && RowFree(Do(s, Read(token)), token) && !HasToken(s, newToken)
  {
    Do(Do(Do(s, Read(token)), LockRow(s.begun)), Finish(s.begun, now, newToken, expires))
  }

  lemma ThreeRun(s: State, token: Id, now: int, newToken: Id, expires: int)
    requires KeysHold(s) && HasToken(s, token) && RowFree(Do(s, Read(token)), token) && !HasToken(s, newToken)
    ensures Run(s, [Read(token), LockRow(s.begun), Finish(s.begun, now, newToken, expires)]) ==
            Some(AfterThree(s, token, now, newToken, expires))
  {
    var s1 := Do(s, Read(token));
    var s2 := Do(s1, LockRow(s.begun));
    RunThree(s, Read(token), s1, LockRow(s.begun), s2, Finish(s.begun, now, newToken, expires));
  }

  /** An uninterrupted call when it has the row. */
  function Presented(s: State, token: Id): Call
    requires KeysHold(s) && HasToken(s, token)
  {
    Holding(token, SnapshotOf(s, token), TokenRow(s, token))
  }

  /** The answer of a call that holds its row. */
  function Reply(call: Call, now: int, newToken: Id): Result<Id, RefreshError>
    requires call.Holding?
  {
    if Judge(call, now).Rotated? then Ok(newToken) else Err(Failed(Judge(call, now)))
  }

  // What the statements mean, on the fields of the rows.

  /** Every session of the user is revoked, and nothing else about the sessions changes. */
  predicate RevokedFor(before: map<Id, Session>, after: map<Id, Session>, user: Id) {
    && before.Keys == after.Keys
    && forall sid :: sid in after ==>
         after[sid] == Session(before[sid].user, before[sid].revoked || before[sid].user == user)
  }

  /** Row k is the one with the id. */
  predicate IsRow(tokens: seq<Token>, id: Id, k: nat) {
    k < |tokens| && tokens[k].id == id && forall j :: 0 <= j < k ==> tokens[j].id != id
  }

  /** The session of token row k is revoked. */
  predicate SessionRevokedFor(s: State, k: nat)
    requires KeysHold(s) && k < |s.tokens|
  {
    s.sessions[s.tokens[k].session].revoked
  }

  /** The user of that session is deleted or suspended. */
  predicate UserBlockedFor(s: State, k: nat)
    requires KeysHold(s) && k < |s.tokens|
  {
    var user := s.users[s.sessions[s.tokens[k].session].user];
    user.deleted || user.suspended
  }

  /** The answer to a call that has token row k: a success if and only if nothing speaks against it. */
  predicate Answers(s: State, k: nat, now: int, r: Result<Id, RefreshError>)
    requires KeysHold(s) && k < |s.tokens|
  {
    var row := s.tokens[k];
    && (r == Err(Failed(SessionRevoked)) <==> SessionRevokedFor(s, k))
    && (r == Err(Failed(UserBlocked)) <==> !SessionRevokedFor(s, k) && UserBlockedFor(s, k))
    && (r == Err(Failed(Expired)) <==> !SessionRevokedFor(s, k) && !UserBlockedFor(s, k) && row.expires < now)
    && (r == Err(Failed(Reused)) <==>
          !SessionRevokedFor(s, k) && !UserBlockedFor(s, k) && now <= row.expires && row.used)
    && (r.Ok? <==> !SessionRevokedFor(s, k) && !UserBlockedFor(s, k) && now <= row.expires && !row.used)
  }

  predicate HeldElsewhere(s: State, token: Id) {
    exists c :: c in s.calls && c != s.begun && s.calls[c].Holding? && s.calls[c].token == token
  }

  lemma HeldIs(s: State, token: Id)
    requires KeysHold(s) && HasToken(s, token)
    ensures HeldElsewhere(s, token) <==> !RowFree(Do(s, Read(token)), token)
  {
    var s' := Do(s, Read(token));
    if HeldElsewhere(s, token) {
      var c :| c in s.calls && c != s.begun && s.calls[c].Holding? && s.calls[c].token == token;
      assert c in s'.calls && s'.calls[c] == s.calls[c];
    }
  }

  /**
   * What an uninterrupted refresh, the call numbered begun, answers and does: an unknown token, a row that
   * another call holds, or the
   * answer for its row; and after a success the row is used and replaced by a new unused one of its session.
   */
  ghost predicate RefreshMeans(
      s: State, s': State, token: Id, now: int, newToken: Id, expires: int, r: Result<Id, RefreshError>)
    requires KeysHold(s)
  {
    && (r == Err(UnknownToken) <==> forall k :: 0 <= k < |s.tokens| ==> s.tokens[k].id != token)
    && (r == Err(MustWait) <==>
          && (exists k: nat :: IsRow(s.tokens, token, k))
          && HeldElsewhere(s, token))
    && (forall k: nat :: IsRow(s.tokens, token, k) && r != Err(MustWait) ==> Answers(s, k, now, r))
    && forall k: nat :: r.Ok? && IsRow(s.tokens, token, k) ==>
         s'.tokens == s.tokens[k := s.tokens[k].(used := true, replacedBy := Some(newToken))]
                      + [Token(newToken, s.tokens[k].session, expires, used := false, replacedBy := None)]
  }

  lemma AnswerMeans(s: State, token: Id, now: int, newToken: Id, expires: int, r: Result<Id, RefreshError>)
    requires KeysHold(s) && HasToken(s, token) && RowFree(Do(s, Read(token)), token) && !HasToken(s, newToken)
    requires r == Reply(Presented(s, token), now, newToken)
    ensures RefreshMeans(s, AfterThree(s, token, now, newToken, expires), token, now, newToken, expires, r)
  {
    RowIs(s.tokens, token);
    HeldIs(s, token);
    AnswerOf(s, token, now, newToken, r);
    if r.Ok? {
      assert AfterThree(s, token, now, newToken, expires).tokens == Rotate(s.tokens, token, newToken, expires);
    }
  }

  lemma AnswerOf(s: State, token: Id, now: int, newToken: Id, r: Result<Id, RefreshError>)
    requires KeysHold(s) && HasToken(s, token) && r == Reply(Presented(s, token), now, newToken)
    ensures Answers(s, IndexOf(s.tokens, token), now, r)
  {
  }

  /** The two answers of a call that does not get its row. */
  lemma NoAnswerMeans(s: State, s': State, token: Id, now: int, newToken: Id, expires: int)
    requires KeysHold(s)
    ensures !HasToken(s, token) ==> RefreshMeans(s, s', token, now, newToken, expires, Err(UnknownToken))
    ensures HasToken(s, token) && !RowFree(Do(s, Read(token)), token) ==>
              RefreshMeans(s, s', token, now, newToken, expires, Err(MustWait))
  {
    RowIs(s.tokens, token);
    if HasToken(s, token) {
      HeldIs(s, token);
      assert IsRow(s.tokens, token, IndexOf(s.tokens, token));
    }
  }

  lemma RowIs(tokens: seq<Token>, id: Id)
    ensures forall k: nat :: IsRow(tokens, id, k) <==> IndexOf(tokens, id) < |tokens| && k == IndexOf(tokens, id)
  {
  }

  lemma RunOne(s: State, a: Action)
    requires Enabled(s, a)
    ensures Run(s, [a]) == Some(Do(s, a))
  {
    assert [a][1..] == [] && Run(Do(s, a), []) == Some(Do(s, a));
  }

  lemma RunThree(s: State, a: Action, s1: State, b: Action, s2: State, c: Action)
    requires Enabled(s, a) && Do(s, a) == s1 && Enabled(s1, b) && Do(s1, b) == s2 && Enabled(s2, c)
    ensures Run(s, [a, b, c]) == Some(Do(s2, c))
  {
    RunOne(s2, c);
    assert [b, c][1..] == [c] && Run(s1, [b, c]) == Run(s2, [c]);
    assert [a, b, c][1..] == [b, c];
  }
}
