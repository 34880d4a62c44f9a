/** What every interleaving of sign-ups, refreshes, logouts and resets keeps. */
module AuthRuns {
  import opened Wrappers
  import opened AuthRefresh

  // ---------------------------------------------------------------------------------------
  // Each action keeps the invariant
  // ---------------------------------------------------------------------------------------

  /** A row keeps its place when rows are added behind it. */
  lemma SameIndex(tokens: seq<Token>, tokens': seq<Token>, id: Id)
    requires |tokens| <= |tokens'| && forall i :: 0 <= i < |tokens| ==> tokens'[i].id == tokens[i].id
    requires IndexOf(tokens, id) < |tokens|
    ensures IndexOf(tokens', id) == IndexOf(tokens, id)
  {
    forall i | 0 <= i < IndexOf(tokens, id) ensures tokens'[i].id != id {
      assert tokens'[i].id == tokens[i].id;
    }
    assert tokens'[IndexOf(tokens, id)].id == id;
  }

  lemma FirstToken(s: State, sid: Id, t: Token)
    requires OfSession(s.tokens, sid) == [t] && !t.used && t.replacedBy.None? && Refreshed(s.log, sid) == []
    ensures SessionOk(s, sid)
  {
    assert Ids([t])[..0] == [];
  }

  lemma NewSessionOk(s: State, user: Id, session: Id, token: Id, expires: int)
    requires KeysHold(s) && session !in s.sessions
    requires forall i :: 0 <= i < |s.log| ==> s.log[i].session in s.sessions
    ensures SessionOk(NewSession(s, user, session, token, expires), session)
  {
    var t := Token(token, session, expires, false, None);
    assert OfSession(s.tokens + [t], session) == [t] by {
      OfSessionAppend(s.tokens, [t], session);
      OfSessionOne(t, session);
      OfSessionNone(s.tokens, session);
    }
    RefreshedNone(s.log, session);
    FirstToken(NewSession(s, user, session, token, expires), session, t);
  }

  lemma OtherSessionOk(s: State, user: Id, session: Id, token: Id, expires: int, sid: Id)
    requires sid != session && SessionOk(s, sid)
    ensures SessionOk(NewSession(s, user, session, token, expires), sid)
  {
    var t := Token(token, session, expires, false, None);
    OfSessionAppend(s.tokens, [t], sid);
    OfSessionOne(t, sid);
    assert OfSession(s.tokens, sid) + [] == OfSession(s.tokens, sid);
  }

  /** Calls whose rows are still there, at the same place. */
  lemma CallsStay(s: State, s': State)
    requires forall c :: c in s.calls ==> CallOk(s, c)
    requires s'.begun == s.begun && forall c :: c in s'.calls ==> c in s.calls && s'.calls[c] == s.calls[c]
    requires |s.tokens| <= |s'.tokens| && forall i :: 0 <= i < |s.tokens| ==> s'.tokens[i].id == s.tokens[i].id
    requires forall c, i :: c in s'.calls && s'.calls[c].Holding? && 0 <= i < |s.tokens| ==>
               s.tokens[i].id == s'.calls[c].token ==> s'.tokens[i] == s.tokens[i]
    ensures forall c :: c in s'.calls ==> CallOk(s', c)
  {
    forall c | c in s'.calls ensures CallOk(s', c) {
      assert CallOk(s, c);
      SameIndex(s.tokens, s'.tokens, s.calls[c].token);
    }
  }

  lemma NewSessionKeeps(s: State, user: Id, session: Id, token: Id, expires: int)
    requires Inv(s) && user in s.users && session !in s.sessions && !HasToken(s, token)
    ensures Inv(NewSession(s, user, session, token, expires))
  {
    AddedSessions(s, user, session, token, expires);
    AddedCalls(s, user, session, token, expires);
    AddedDistinct(s.tokens, Token(token, session, expires, false, None));
    AddedKeys(s, user, session, token, expires);
  }

  lemma AddedKeys(s: State, user: Id, session: Id, token: Id, expires: int)
    requires KeysHold(s) && user in s.users
    ensures KeysHold(NewSession(s, user, session, token, expires))
  {
  }

  lemma AddedSessions(s: State, user: Id, session: Id, token: Id, expires: int)
    requires KeysHold(s) && session !in s.sessions && forall sid :: sid in s.sessions ==> SessionOk(s, sid)
    requires forall i :: 0 <= i < |s.log| ==> s.log[i].session in s.sessions
    ensures var s' := NewSession(s, user, session, token, expires);
            forall sid :: sid in s'.sessions ==> SessionOk(s', sid)
  {
    forall sid | sid in NewSession(s, user, session, token, expires).sessions
      ensures SessionOk(NewSession(s, user, session, token, expires), sid)
    {
      if sid == session {
        NewSessionOk(s, user, session, token, expires);
      } else {
        OtherSessionOk(s, user, session, token, expires, sid);
      }
    }
  }

  lemma AddedCalls(s: State, user: Id, session: Id, token: Id, expires: int)
    requires forall c :: c in s.calls ==> CallOk(s, c)
    ensures var s' := NewSession(s, user, session, token, expires); forall c :: c in s'.calls ==> CallOk(s', c)
  {
    CallsStay(s, NewSession(s, user, session, token, expires));
  }

  lemma AddedDistinct(tokens: seq<Token>, t: Token)
    requires DistinctTokens(tokens) && IndexOf(tokens, t.id) == |tokens|
    ensures DistinctTokens(tokens + [t])
  {
  }

  /** An action that leaves tokens and log alone and drops no session. */
  lemma SameChains(s: State, s': State)
    requires forall sid :: sid in s.sessions ==> SessionOk(s, sid)
    requires s'.tokens == s.tokens && s'.log == s.log && s'.sessions.Keys == s.sessions.Keys
    ensures forall sid :: sid in s'.sessions ==> SessionOk(s', sid)
  {
    forall sid | sid in s'.sessions ensures SessionOk(s', sid) {
      assert SessionOk(s, sid);
    }
  }

  lemma SameCalls(s: State, s': State)
    requires forall c :: c in s.calls ==> CallOk(s, c)
    requires s'.tokens == s.tokens && s'.begun == s.begun
    requires forall c :: c in s'.calls ==> c in s.calls && s'.calls[c] == s.calls[c]
    ensures forall c :: c in s'.calls ==> CallOk(s', c)
  {
    forall c | c in s'.calls ensures CallOk(s', c) {
      assert CallOk(s, c);
    }
  }

  lemma RevokeKeeps(s: State, session: Id)
    requires Inv(s)
    ensures Inv(Revoke(s, session))
  {
    if session in s.sessions {
      SameChains(s, Revoke(s, session));
      SameCalls(s, Revoke(s, session));
    }
  }

  lemma ReadKeeps(s: State, a: Action)
    requires Inv(s) && Enabled(s, a) && (a.Read? || a.LockRow?)
    ensures Inv(Do(s, a))
  {
    var s' := Do(s, a);
    SameChains(s, s');
    forall c | c in s'.calls ensures CallOk(s', c) {
      ReadCall(s, a, c);
    }
  }

  lemma ReadCall(s: State, a: Action, c: nat)
    requires (forall d :: d in s.calls ==> CallOk(s, d)) && Enabled(s, a) && (a.Read? || a.LockRow?) &&
             c in Do(s, a).calls
    ensures CallOk(Do(s, a), c)
  {
    if c in s.calls {
      assert CallOk(s, c);
    }
  }

  lemma DropKeeps(s: State, c: nat)
    requires Inv(s)
    ensures Inv(s.(calls := s.calls - {c}))
  {
    SameChains(s, s.(calls := s.calls - {c}));
    SameCalls(s, s.(calls := s.calls - {c}));
  }

  lemma RotateKeeps(s: State, c: nat, newToken: Id, expires: int)
    requires Inv(s) && c in s.calls && s.calls[c].Holding? && !s.calls[c].row.used && !HasToken(s, newToken)
    requires HasToken(s, s.calls[c].token)
    ensures Inv(AfterRotation(s, c, s.calls[c], newToken, expires))
  {
    var call := s.calls[c];
    assert CallOk(s, c);
    RotatedKeys(s, call.token, newToken, expires);
    RotatedDistinct(s.tokens, call.token, newToken, expires);
    RotatedSessions(s, c, newToken, expires);
    RotatedCalls(s, c, newToken, expires);
  }

  lemma RotatedKeys(s: State, id: Id, newToken: Id, expires: int)
    requires KeysHold(s) && HasToken(s, id)
    ensures var tokens := Rotate(s.tokens, id, newToken, expires);
            forall i :: 0 <= i < |tokens| ==> tokens[i].session in s.sessions
  {
  }

  lemma RotatedSessions(s: State, c: nat, newToken: Id, expires: int)
    requires forall sid :: sid in s.sessions ==> SessionOk(s, sid)
    requires CallOk(s, c) && s.calls[c].Holding? && !s.calls[c].row.used && s.calls[c].row.session in s.sessions
    ensures forall sid :: sid in s.sessions ==> SessionOk(AfterRotation(s, c, s.calls[c], newToken, expires), sid)
  {
    forall sid | sid in s.sessions ensures SessionOk(AfterRotation(s, c, s.calls[c], newToken, expires), sid) {
      assert SessionOk(s, sid) && SessionOk(s, s.calls[c].row.session);
      RotatedOk(s, c, newToken, expires, sid);
    }
  }

  lemma RotatedCalls(s: State, c: nat, newToken: Id, expires: int)
    requires (forall d :: d in s.calls ==> CallOk(s, d)) && c in s.calls && s.calls[c].Holding?
    ensures CallOk(s, c)
    ensures var s' := AfterRotation(s, c, s.calls[c], newToken, expires); forall d :: d in s'.calls ==> CallOk(s', d)
  {
    assert CallOk(s, c);
    var s', id := AfterRotation(s, c, s.calls[c], newToken, expires), s.calls[c].token;
    forall i | 0 <= i < |s.tokens|
      ensures s'.tokens[i].id == s.tokens[i].id && (s.tokens[i].id != id ==> s'.tokens[i] == s.tokens[i])
    {
      RotatedRow(s.tokens, id, newToken, expires, i);
    }
    CallsStay(s, s');
  }

  lemma RotatedRow(tokens: seq<Token>, id: Id, newToken: Id, expires: int, i: nat)
    requires IndexOf(tokens, id) < |tokens| && i < |tokens|
    ensures var t := Rotate(tokens, id, newToken, expires)[i];
            t.id == tokens[i].id && (tokens[i].id != id ==> t == tokens[i])
  {
  }

  lemma RotatedDistinct(tokens: seq<Token>, id: Id, newToken: Id, expires: int)
    requires DistinctTokens(tokens) && IndexOf(tokens, id) < |tokens| && IndexOf(tokens, newToken) == |tokens|
    ensures DistinctTokens(Rotate(tokens, id, newToken, expires))
  {
    var k := IndexOf(tokens, id);
    var marked := tokens[k := tokens[k].(used := true, replacedBy := Some(newToken))];
    assert forall i :: 0 <= i < |tokens| ==> marked[i].id == tokens[i].id;
  }

  lemma RotatedOk(s: State, c: nat, newToken: Id, expires: int, sid: Id)
    requires CallOk(s, c) && s.calls[c].Holding? && !s.calls[c].row.used
    requires SessionOk(s, sid) && SessionOk(s, s.calls[c].row.session)
    ensures SessionOk(AfterRotation(s, c, s.calls[c], newToken, expires), sid)
  {
    var s', call := AfterRotation(s, c, s.calls[c], newToken, expires), s.calls[c];
    assert s'.log[..|s.log|] == s.log;
    if sid == call.row.session {
      RotatedChain(s.tokens, call.token, newToken, expires);
      RotatedIds(OfSession(s.tokens, sid), OfSession(s'.tokens, sid), Refreshed(s.log, sid), call.token);
    } else {
      RotatedOther(s.tokens, call.token, newToken, expires, sid);
      assert Refreshed(s.log, sid) + [] == Refreshed(s.log, sid);
    }
  }

  lemma RotatedIds(c: seq<Token>, d: seq<Token>, done: seq<Id>, id: Id)
    requires c != [] && |d| == |c| + 1 && Ids(d)[..|c|] == Ids(c) && c[|c| - 1].id == id
    requires done == Ids(c)[..|c| - 1]
    ensures done + [id] == Ids(d)[..|d| - 1]
  {
  }

  lemma FinishKeeps(s: State, a: Action)
    requires Inv(s) && Enabled(s, a) && a.Finish?
    ensures Inv(Do(s, a))
  {
    DropKeeps(s, a.call);
    match Judge(s.calls[a.call], a.now) {
      case Rotated => RotateKeeps(s, a.call, a.newToken, a.expires);
      case Reused => RevokeKeeps(s.(calls := s.calls - {a.call}), s.calls[a.call].row.session);
      case _ =>
    }
  }

  lemma OtherKeys(s: State, a: Action)
    requires KeysHold(s) && Enabled(s, a) && (a.RequestReset? || a.ConfirmReset? || a.SetUser? || a.Purge?)
    ensures KeysHold(Do(s, a)) && Do(s, a).sessions.Keys == s.sessions.Keys
    ensures Do(s, a).tokens == s.tokens && Do(s, a).log == s.log && Do(s, a).calls == s.calls &&
            Do(s, a).begun == s.begun
  {
  }

  lemma OtherKeeps(s: State, a: Action)
    requires Inv(s) && Enabled(s, a) && (a.RequestReset? || a.ConfirmReset? || a.SetUser? || a.Purge?)
    ensures Inv(Do(s, a))
  {
    OtherKeys(s, a);
    SameChains(s, Do(s, a));
    SameCalls(s, Do(s, a));
  }

  lemma StepKeeps(s: State, a: Action)
    requires Inv(s) && Enabled(s, a)
    ensures Inv(Do(s, a))
  {
    match a {
      case Signup(user, session, token, expires) =>
        SameChains(s, s.(users := s.users[user := User(false, false)]));
        SameCalls(s, s.(users := s.users[user := User(false, false)]));
        NewSessionKeeps(s.(users := s.users[user := User(false, false)]), user, session, token, expires);
      case IssuePair(user, session, token, expires) => NewSessionKeeps(s, user, session, token, expires);
      case Read(_) => ReadKeeps(s, a);
      case LockRow(_) => ReadKeeps(s, a);
      case Finish(_, _, _, _) => FinishKeeps(s, a);
      case Abort(c) => DropKeeps(s, c);
      case Logout(session) => RevokeKeeps(s, session);
      case _ => OtherKeeps(s, a);
    }
  }

  lemma {:induction false} RunKeeps(s: State, actions: seq<Action>)
    requires Inv(s)
    ensures Run(s, actions).Some? ==> Inv(Run(s, actions).value)
    decreases |actions|
  {
    if actions != [] && Enabled(s, actions[0]) {
      StepKeeps(s, actions[0]);
      RunKeeps(Do(s, actions[0]), actions[1..]);
    }
  }

  // ---------------------------------------------------------------------------------------
  // One chain per session, no token twice
  // ---------------------------------------------------------------------------------------

  /**
   * After every run the tokens of a session are one chain linked by replaced_by with one unused token at
   * its end, and the refreshes that succeeded are exactly those of the other tokens, in order: the session
   * has one token more than it had successful refreshes.
   */
  lemma OneChainPerSession(actions: seq<Action>, sid: Id)
    requires Run(INIT, actions).Some? && sid in Run(INIT, actions).value.sessions
    ensures var s := Run(INIT, actions).value;
            var c := OfSession(s.tokens, sid);
            Linked(c) && Refreshed(s.log, sid) == Ids(c)[..|c| - 1] && |c| == 1 + |Refreshed(s.log, sid)|
  {
    RunKeeps(INIT, actions);
    assert SessionOk(Run(INIT, actions).value, sid);
  }

  lemma {:induction false} RefreshedAt(log: seq<Success>, k: nat) returns (i: nat)
    requires k < |log|
    ensures i < |Refreshed(log, log[k].session)| && Refreshed(log, log[k].session)[i] == log[k].token
    ensures i == |Refreshed(log[..k], log[k].session)|
    decreases |log|
  {
    var n := |log| - 1;
    if k == n {
      i := |Refreshed(log[..n], log[k].session)|;
    } else {
      i := RefreshedAt(log[..n], k);
      assert log[..n][..k] == log[..k];
    }
  }

  lemma {:induction false} RefreshedGrows(log: seq<Success>, k: nat, sid: Id)
    requires k <= |log|
    ensures |Refreshed(log[..k], sid)| <= |Refreshed(log, sid)|
    decreases |log|
  {
    if k < |log| {
      RefreshedGrows(log[..|log| - 1], k, sid);
      assert log[..|log| - 1][..k] == log[..k];
    } else {
      assert log[..k] == log;
    }
  }

  lemma {:induction false} OfSessionFrom(tokens: seq<Token>, sid: Id)
    ensures forall t :: t in OfSession(tokens, sid) ==> t in tokens && t.session == sid
    ensures DistinctTokens(tokens) ==> DistinctTokens(OfSession(tokens, sid))
  {
    if tokens != [] {
      var init, last := tokens[..|tokens| - 1], tokens[|tokens| - 1];
      OfSessionFrom(init, sid);
      if DistinctTokens(tokens) {
        forall t | t in init ensures t.id != last.id {
        }
      }
    }
  }

  lemma RefreshedIsToken(s: State, k: nat) returns (t: Token)
    requires Inv(s) && k < |s.log|
    ensures t in s.tokens && t.id == s.log[k].token && t.session == s.log[k].session
  {
    var sid := s.log[k].session;
    assert SessionOk(s, sid);
    var i := RefreshedAt(s.log, k);
    var c := OfSession(s.tokens, sid);
    assert Refreshed(s.log, sid)[i] == Ids(c)[i];
    t := c[i];
    OfSessionFrom(s.tokens, sid);
    assert c[i] in c;
  }

  /** No token is refreshed successfully twice, whatever calls run at once. */
  lemma NoTokenTwice(actions: seq<Action>, j: nat, k: nat)
    requires Run(INIT, actions).Some? && j < k < |Run(INIT, actions).value.log|
    ensures var log := Run(INIT, actions).value.log; log[j].token != log[k].token
  {
    var s := Run(INIT, actions).value;
    RunKeeps(INIT, actions);
    var t := RefreshedIsToken(s, j);
    var u := RefreshedIsToken(s, k);
    if t == u {
      SameSessionTwice(s, j, k);
    }
  }

  lemma SameSessionTwice(s: State, j: nat, k: nat)
    requires Inv(s) && j < k < |s.log| && s.log[j].session == s.log[k].session
    ensures s.log[j].token != s.log[k].token
  {
    var log, sid := s.log, s.log[j].session;
    var p := RefreshedAt(log, j);
    var q := RefreshedAt(log, k);
    RefreshedGrows(log[..k], j + 1, sid);
    assert log[..k][..j + 1] == log[..j + 1] && log[..j + 1][..j] == log[..j];
    assert p < q;
    assert SessionOk(s, sid);
    OfSessionFrom(s.tokens, sid);
    var c := OfSession(s.tokens, sid);
    assert Refreshed(log, sid)[p] == c[p].id && Refreshed(log, sid)[q] == c[q].id;
  }
}
