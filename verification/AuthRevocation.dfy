/** Revocation of a session: what causes it, that it lasts, and what a refresh under way can still do. */
module AuthRevocation {
  import opened Wrappers
  import opened AuthRefresh
  import opened AuthRuns

  predicate Revoked(s: State, sid: Id) {
    sid in s.sessions && s.sessions[sid].revoked
  }

  /** A logout, a password reset or a purge of the user, or the replay of a used token that has not expired. */
  predicate Revokes(s: State, a: Action, sid: Id)
    requires Enabled(s, a) && sid in s.sessions
  {
    match a
    case Logout(session) => session == sid
    case ConfirmReset(reset, _) => s.resets[reset].user == s.sessions[sid].user
    case Purge(user) => user == s.sessions[sid].user
    case Finish(c, now, _, _) =>
      var call := s.calls[c];
      && call.row.session == sid && call.row.used && now <= call.row.expires
      && !call.seen.sessionRevoked && !call.seen.userBlocked
    case _ => false
  }

  /** Nothing else revokes a session, and nothing takes a revocation back. */
  lemma RevokedIff(s: State, a: Action, sid: Id)
    requires Enabled(s, a) && sid in s.sessions
    ensures Revoked(Do(s, a), sid) <==> Revoked(s, sid) || Revokes(s, a, sid)
  {
  }

  /** A used token replayed after its expiry is turned away without revoking anything. */
  lemma ExpiredReplayRevokesNothing(s: State, a: Action)
    requires Enabled(s, a) && a.Finish? && s.calls[a.call].row.used && a.now > s.calls[a.call].row.expires
    ensures Do(s, a) == s.(calls := s.calls - {a.call})
  {
  }

  // ---------------------------------------------------------------------------------------
  // What has happened since a state
  // ---------------------------------------------------------------------------------------

  /** Rows are only added, and a used token stays used. */
  predicate RowsKept(s: State, s': State) {
    && |s.tokens| <= |s'.tokens|
    && forall i :: 0 <= i < |s.tokens| ==>
         && s'.tokens[i].id == s.tokens[i].id && s'.tokens[i].session == s.tokens[i].session
         && s'.tokens[i].expires == s.tokens[i].expires && (s.tokens[i].used ==> s'.tokens[i].used)
  }

  /** A call under way now: begun since and aware of the revocation, or under way then. */
  predicate CallSince(base: State, s: State, sid: Id, c: nat)
    requires c in s.calls && HasToken(s, s.calls[c].token)
  {
    if c < base.begun then
      c in base.calls && s.calls[c].seen == base.calls[c].seen && s.calls[c].token == base.calls[c].token
    else
      TokenRow(s, s.calls[c].token).session == sid ==> s.calls[c].seen.sessionRevoked
  }

  /** A call under way that read the session unrevoked and the user unblocked, with the session's unused token. */
  predicate MaySucceed(s: State, sid: Id, c: nat) {
    && c in s.calls && !s.calls[c].seen.sessionRevoked && !s.calls[c].seen.userBlocked
    && HasToken(s, s.calls[c].token) && !TokenRow(s, s.calls[c].token).used
    && TokenRow(s, s.calls[c].token).session == sid
  }

  /** The token such a call presents has not expired at a time. */
  predicate InTime(s: State, c: nat, t: int) {
    c in s.calls && HasToken(s, s.calls[c].token) && t <= TokenRow(s, s.calls[c].token).expires
  }

  /** A success since, all clocks read from t on: by such a call, of its token, in time. */
  predicate LateSuccess(base: State, sid: Id, t: int, e: Success) {
    MaySucceed(base, sid, e.call) && InTime(base, e.call, t) && base.calls[e.call].token == e.token
  }

  /** No refresh reads its clock before t. */
  predicate NotBefore(actions: seq<Action>, t: int) {
    forall i :: 0 <= i < |actions| && actions[i].Finish? ==> t <= actions[i].now
  }

  /** A time before which no refresh of the run reads its clock. */
  function Earliest(actions: seq<Action>): (t: int)
    ensures NotBefore(actions, t)
  {
    if actions == [] then 0
    else
      var rest := Earliest(actions[1..]);
      assert forall i :: 0 < i < |actions| ==> actions[i] == actions[1..][i - 1];
      if actions[0].Finish? && actions[0].now < rest then actions[0].now else rest
  }

  predicate Since(base: State, s: State, sid: Id, t: int) {
    && Inv(base) && Inv(s) && RowsKept(base, s) && base.begun <= s.begun && Revoked(s, sid)
    && (forall c :: c in s.calls ==> HasToken(s, s.calls[c].token) && CallSince(base, s, sid, c))
    && base.log <= s.log
    && forall i :: |base.log| <= i < |s.log| && s.log[i].session == sid ==> LateSuccess(base, sid, t, s.log[i])
  }

  lemma SinceStart(s: State, sid: Id, t: int)
    requires Inv(s) && Revoked(s, sid)
    ensures Since(s, s, sid, t)
  {
    forall c | c in s.calls ensures HasToken(s, s.calls[c].token) && CallSince(s, s, sid, c) {
      assert CallOk(s, c);
    }
  }

  lemma StepRows(s: State, a: Action)
    requires Enabled(s, a)
    ensures RowsKept(s, Do(s, a)) && s.begun <= Do(s, a).begun
  {
    if a.Finish? && Judge(s.calls[a.call], a.now).Rotated? {
      RotateRows(s.tokens, s.calls[a.call].token, a.newToken, a.expires);
    }
  }

  lemma RotateRows(tokens: seq<Token>, id: Id, newToken: Id, expires: int)
    requires IndexOf(tokens, id) < |tokens|
    ensures var r := Rotate(tokens, id, newToken, expires);
            forall i :: 0 <= i < |tokens| ==>
              && r[i].id == tokens[i].id && r[i].session == tokens[i].session
              && r[i].expires == tokens[i].expires && (tokens[i].used ==> r[i].used)
  {
  }

  lemma RowKept(s: State, s': State, id: Id)
    requires RowsKept(s, s') && HasToken(s, id)
    ensures HasToken(s', id) && TokenRow(s', id).session == TokenRow(s, id).session
    ensures TokenRow(s', id).expires == TokenRow(s, id).expires
    ensures TokenRow(s, id).used ==> TokenRow(s', id).used
  {
    SameIndex(s.tokens, s'.tokens, id);
  }

  /** A call under way after a step was under way before it, or has just read. */
  lemma CallOrigin(s: State, a: Action, c: nat)
    requires Enabled(s, a) && c in Do(s, a).calls
    ensures if c in s.calls && !(a.Read? && c == s.begun) then
              Do(s, a).calls[c].seen == s.calls[c].seen && Do(s, a).calls[c].token == s.calls[c].token
            else
              a.Read? && c == s.begun && Do(s, a).calls[c] == Waiting(a.token, SnapshotOf(s, a.token))
  {
  }

  lemma OldCall(base: State, s: State, s': State, sid: Id, c: nat)
    requires c in s.calls && HasToken(s, s.calls[c].token) && CallSince(base, s, sid, c) && RowsKept(s, s')
    requires c in s'.calls && s'.calls[c].seen == s.calls[c].seen && s'.calls[c].token == s.calls[c].token
    ensures HasToken(s', s'.calls[c].token) && CallSince(base, s', sid, c)
  {
    RowKept(s, s', s.calls[c].token);
  }

  lemma NewCall(base: State, s: State, s': State, sid: Id, token: Id)
    requires KeysHold(s) && Revoked(s, sid) && base.begun <= s.begun && RowsKept(s, s') && HasToken(s, token)
    requires s.begun in s'.calls && s'.calls[s.begun] == Waiting(token, SnapshotOf(s, token))
    ensures HasToken(s', token) && CallSince(base, s', sid, s.begun)
  {
    RowKept(s, s', token);
  }

  lemma StepCalls(base: State, s: State, a: Action, sid: Id, c: nat)
    requires Enabled(s, a) && Revoked(s, sid) && base.begun <= s.begun && RowsKept(s, Do(s, a)) && c in Do(s, a).calls
    requires forall d :: d in s.calls ==> HasToken(s, s.calls[d].token) && CallSince(base, s, sid, d)
    ensures HasToken(Do(s, a), Do(s, a).calls[c].token) && CallSince(base, Do(s, a), sid, c)
  {
    CallOrigin(s, a, c);
    if c in s.calls && !(a.Read? && c == s.begun) {
      OldCall(base, s, Do(s, a), sid, c);
    } else {
      NewCall(base, s, Do(s, a), sid, a.token);
    }
  }

  /** A step adds at most one success: that of a call whose locked row is unused. */
  lemma LogOrigin(s: State, a: Action)
    requires Enabled(s, a)
    ensures s.log <= Do(s, a).log && |Do(s, a).log| <= |s.log| + 1
    ensures |Do(s, a).log| == |s.log| + 1 ==>
              && a.Finish? && s.calls[a.call].seen == Snapshot(false, false) && !s.calls[a.call].row.used
              && a.now <= s.calls[a.call].row.expires
              && Do(s, a).log[|s.log|] == Success(a.call, s.calls[a.call].token, s.calls[a.call].row.session)
  {
  }

  lemma NewSuccess(base: State, s: State, sid: Id, t: int, c: nat)
    requires c in s.calls && CallOk(s, c) && CallSince(base, s, sid, c) && RowsKept(base, s)
    requires forall d :: d in base.calls ==> CallOk(base, d)
    requires s.calls[c].Holding? && !s.calls[c].row.used && s.calls[c].seen == Snapshot(false, false)
    requires s.calls[c].row.session == sid && t <= s.calls[c].row.expires
    ensures LateSuccess(base, sid, t, Success(c, s.calls[c].token, sid))
  {
    assert CallOk(base, c);
    RowKept(base, s, s.calls[c].token);
  }

  lemma StepLog(base: State, s: State, sid: Id, t: int, c: nat, log: seq<Success>)
    requires (forall d :: d in base.calls ==> CallOk(base, d)) && RowsKept(base, s)
    requires s.log <= log && |log| <= |s.log| + 1
    requires |log| == |s.log| + 1 ==>
               && c in s.calls && CallOk(s, c) && CallSince(base, s, sid, c) && s.calls[c].Holding?
               && s.calls[c].seen == Snapshot(false, false) && !s.calls[c].row.used && t <= s.calls[c].row.expires
               && log[|s.log|] == Success(c, s.calls[c].token, s.calls[c].row.session)
    ensures forall i :: |s.log| <= i < |log| && log[i].session == sid ==> LateSuccess(base, sid, t, log[i])
  {
    if |log| == |s.log| + 1 && s.calls[c].row.session == sid {
      NewSuccess(base, s, sid, t, c);
    }
  }

  lemma SinceLog(base: State, s: State, a: Action, sid: Id, t: int)
    requires (forall d :: d in base.calls ==> CallOk(base, d)) && RowsKept(base, s) && Enabled(s, a)
    requires forall d :: d in s.calls ==> CallOk(s, d) && CallSince(base, s, sid, d)
    requires a.Finish? ==> t <= a.now
    ensures s.log <= Do(s, a).log
    ensures var log := Do(s, a).log;
            forall i :: |s.log| <= i < |log| && log[i].session == sid ==> LateSuccess(base, sid, t, log[i])
  {
    LogOrigin(s, a);
    if |Do(s, a).log| == |s.log| + 1 {
      StepLog(base, s, sid, t, a.call, Do(s, a).log);
    }
  }

  lemma SinceStep(base: State, s: State, a: Action, sid: Id, t: int)
    requires Since(base, s, sid, t) && Enabled(s, a) && (a.Finish? ==> t <= a.now)
    ensures Since(base, Do(s, a), sid, t)
  {
    StepKeeps(s, a);
    StepRows(s, a);
    RevokedIff(s, a, sid);
    SinceLog(base, s, a, sid, t);
    forall c | c in Do(s, a).calls
      ensures HasToken(Do(s, a), Do(s, a).calls[c].token) && CallSince(base, Do(s, a), sid, c)
    {
      StepCalls(base, s, a, sid, c);
    }
  }

  lemma LaterNotBefore(actions: seq<Action>, t: int)
    requires actions != [] && NotBefore(actions, t)
    ensures NotBefore(actions[1..], t)
  {
    assert forall i :: 0 < i < |actions| ==> actions[i] == actions[1..][i - 1];
  }

  lemma {:induction false} SinceRun(base: State, s: State, actions: seq<Action>, sid: Id, t: int)
    requires Since(base, s, sid, t) && NotBefore(actions, t)
    ensures Run(s, actions).Some? ==> Since(base, Run(s, actions).value, sid, t)
    decreases |actions|
  {
    if actions != [] && Enabled(s, actions[0]) {
      SinceStep(base, s, actions[0], sid, t);
      LaterNotBefore(actions, t);
      SinceRun(base, Do(s, actions[0]), actions[1..], sid, t);
    }
  }

  // ---------------------------------------------------------------------------------------
  // Revocation is permanent
  // ---------------------------------------------------------------------------------------

  lemma {:induction false} InSession(tokens: seq<Token>, k: nat)
    requires k < |tokens|
    ensures tokens[k] in OfSession(tokens, tokens[k].session)
  {
    if k < |tokens| - 1 {
      InSession(tokens[..|tokens| - 1], k);
    }
  }

  /** The unused token of a session is the last of its chain. */
  lemma UnusedIsLast(s: State, id: Id)
    requires Inv(s) && HasToken(s, id) && !TokenRow(s, id).used
    ensures var c := OfSession(s.tokens, TokenRow(s, id).session); c != [] && c[|c| - 1].id == id
  {
    var t := TokenRow(s, id);
    InSession(s.tokens, IndexOf(s.tokens, id));
    assert SessionOk(s, t.session);
    var c := OfSession(s.tokens, t.session);
    var i :| 0 <= i < |c| && c[i] == t;
  }

  /**
   * Once a session is revoked it stays revoked, and no refresh that begins afterwards succeeds for any of
   * its tokens. A refresh that had already read the session unrevoked and its user unblocked may still
   * succeed: for the token that was unused at the revocation, and no other.
   */
  lemma RevocationIsPermanent(before: seq<Action>, after: seq<Action>, sid: Id, k: nat)
    requires Run(INIT, before).Some? && Run(Run(INIT, before).value, after).Some?
    requires Revoked(Run(INIT, before).value, sid)
    ensures var s := Run(INIT, before).value;
            var s' := Run(s, after).value;
            && Revoked(s', sid) && s.log <= s'.log
            && (|s.log| <= k < |s'.log| && s'.log[k].session == sid ==>
                  && MaySucceed(s, sid, s'.log[k].call) && s.calls[s'.log[k].call].token == s'.log[k].token
                  && var c := OfSession(s.tokens, sid);
                     c != [] && s'.log[k].token == c[|c| - 1].id)
  {
    var s := Run(INIT, before).value;
    RunKeeps(INIT, before);
    LateSuccessIs(s, after, sid, Earliest(after), k);
    var log := Run(s, after).value.log;
    if |s.log| <= k < |log| && log[k].session == sid {
      UnusedIsLast(s, log[k].token);
    }
  }

  /** Every success in a run that follows a revocation, all clocks read from t on. */
  lemma LateSuccessIs(s: State, after: seq<Action>, sid: Id, t: int, k: nat)
    requires Inv(s) && Revoked(s, sid) && Run(s, after).Some? && NotBefore(after, t)
    ensures Revoked(Run(s, after).value, sid) && s.log <= Run(s, after).value.log
    ensures var log := Run(s, after).value.log;
            |s.log| <= k < |log| && log[k].session == sid ==> LateSuccess(s, sid, t, log[k])
  {
    SinceStart(s, sid, t);
    SinceRun(s, s, after, sid, t);
  }

  lemma {:induction false} RunJoin(s: State, a: seq<Action>, b: seq<Action>)
    requires Run(s, a).Some?
    ensures Run(s, a + b) == Run(Run(s, a).value, b)
    decreases |a|
  {
    if a == [] {
      assert a + b == b;
    } else {
      RunJoin(Do(s, a[0]), a[1..], b);
      assert (a + b)[1..] == a[1..] + b;
    }
  }

  /** So at most one refresh of the session succeeds after its revocation. */
  lemma OneLateSuccess(before: seq<Action>, after: seq<Action>, sid: Id, j: nat, k: nat)
    requires Run(INIT, before).Some? && Run(Run(INIT, before).value, after).Some?
    requires Revoked(Run(INIT, before).value, sid)
    requires |Run(INIT, before).value.log| <= j < |Run(Run(INIT, before).value, after).value.log|
    requires |Run(INIT, before).value.log| <= k < |Run(Run(INIT, before).value, after).value.log|
    requires var log := Run(Run(INIT, before).value, after).value.log; log[j].session == log[k].session == sid
    ensures j == k
  {
    RevocationIsPermanent(before, after, sid, j);
    RevocationIsPermanent(before, after, sid, k);
    RunJoin(INIT, before, after);
    if j < k {
      NoTokenTwice(before + after, j, k);
    } else if k < j {
      NoTokenTwice(before + after, k, j);
    }
  }

  // ---------------------------------------------------------------------------------------
  // When a refresh outlives the revocation
  // ---------------------------------------------------------------------------------------

  /** The run, in which no refresh reads its clock before t, has a successful refresh of the session. */
  predicate SucceedsIn(s: State, sid: Id, t: int, after: seq<Action>) {
    && NotBefore(after, t) && Run(s, after).Some?
    && exists k :: |s.log| <= k < |Run(s, after).value.log| && Run(s, after).value.log[k].session == sid
  }

  function FreshId(tokens: seq<Token>): (id: Id)
    ensures IndexOf(tokens, id) == |tokens|
    ensures forall i :: 0 <= i < |tokens| ==> tokens[i].id < id
  {
    if tokens == [] then 0
    else
      var n := |tokens| - 1;
      var before := FreshId(tokens[..n]);
      assert forall i :: 0 <= i < n ==> tokens[i] == tokens[..n][i];
      if tokens[n].id < before then before else tokens[n].id + 1
  }

  lemma RunOne(s: State, a: Action, rest: seq<Action>)
    requires Enabled(s, a)
    ensures Run(s, [a] + rest) == Run(Do(s, a), rest)
  {
    assert ([a] + rest)[1..] == rest;
  }

  /** A call that holds its row has only to finish. */
  lemma HolderSucceeds(s: State, sid: Id, t: int, c: nat) returns (after: seq<Action>)
    requires Inv(s) && MaySucceed(s, sid, c) && InTime(s, c, t) && s.calls[c].Holding?
    ensures SucceedsIn(s, sid, t, after)
  {
    assert CallOk(s, c);
    var finish := Finish(c, t, FreshId(s.tokens), t);
    after := [finish] + [];
    RunOne(s, finish, []);
    assert Do(s, finish).log[|s.log|].session == sid;
  }

  lemma SucceedsAfter(s: State, a: Action, sid: Id, t: int, rest: seq<Action>)
    requires Enabled(s, a) && !a.Finish? && Do(s, a).log == s.log && SucceedsIn(Do(s, a), sid, t, rest)
    ensures SucceedsIn(s, sid, t, [a] + rest)
  {
    RunOne(s, a, rest);
  }

  /** One that waits takes the row once it is free. */
  lemma WaiterSucceeds(s: State, sid: Id, t: int, c: nat) returns (after: seq<Action>)
    requires Inv(s) && MaySucceed(s, sid, c) && InTime(s, c, t) && s.calls[c].Waiting? && RowFree(s, s.calls[c].token)
    ensures SucceedsIn(s, sid, t, after)
  {
    StepKeeps(s, LockRow(c));
    after := HolderSucceeds(Do(s, LockRow(c)), sid, t, c);
    SucceedsAfter(s, LockRow(c), sid, t, after);
    after := [LockRow(c)] + after;
  }

  lemma FreedRow(s: State, c: nat, d: nat)
    requires Inv(s) && c in s.calls && s.calls[c].Waiting?
    requires d in s.calls && s.calls[d].Holding? && s.calls[d].token == s.calls[c].token
    ensures RowFree(Do(s, Abort(d)), s.calls[c].token)
  {
    assert CallOk(s, d);
  }

  lemma SomeRunSucceeds(s: State, sid: Id, t: int, c: nat) returns (after: seq<Action>)
    requires Inv(s) && MaySucceed(s, sid, c) && InTime(s, c, t)
    ensures SucceedsIn(s, sid, t, after)
  {
    if s.calls[c].Holding? {
      after := HolderSucceeds(s, sid, t, c);
    } else if RowFree(s, s.calls[c].token) {
      after := WaiterSucceeds(s, sid, t, c);
    } else {
      var d :| d in s.calls && s.calls[d].Holding? && s.calls[d].token == s.calls[c].token;
      FreedRow(s, c, d);
      DropKeeps(s, d);
      after := WaiterSucceeds(Do(s, Abort(d)), sid, t, c);
      SucceedsAfter(s, Abort(d), sid, t, after);
      after := [Abort(d)] + after;
    }
  }

  /**
   * At any time t after the revocation of a session some continuation still refreshes it, if and only if a
   * call is under way that read the session unrevoked and its user unblocked and presents the session's
   * unused token, which has not expired at t: the session and user rows are read without a lock.
   */
  lemma OutlivesRevocationIff(before: seq<Action>, sid: Id, t: int)
    requires Run(INIT, before).Some? && Revoked(Run(INIT, before).value, sid)
    ensures var s := Run(INIT, before).value;
            (exists after :: SucceedsIn(s, sid, t, after)) <==> exists c :: MaySucceed(s, sid, c) && InTime(s, c, t)
  {
    var s := Run(INIT, before).value;
    RunKeeps(INIT, before);
    if after :| SucceedsIn(s, sid, t, after) {
      var k :| |s.log| <= k < |Run(s, after).value.log| && Run(s, after).value.log[k].session == sid;
      LateSuccessIs(s, after, sid, t, k);
      assert MaySucceed(s, sid, Run(s, after).value.log[k].call);
    }
    if c :| MaySucceed(s, sid, c) && InTime(s, c, t) {
      var after := SomeRunSucceeds(s, sid, t, c);
    }
  }

  /** A logout between the read and the lock of a refresh is such a case, as long as the token has not expired. */
  lemma RefreshOutlivesLogout(t: int) returns (before: seq<Action>)
    ensures Run(INIT, before).Some? && Revoked(Run(INIT, before).value, 1)
    ensures (exists after :: SucceedsIn(Run(INIT, before).value, 1, t, after)) <==> t <= 100
  {
    var signup, read, logout := Signup(0, 1, 2, 100), Read(2), Logout(1);
    var s1 := Do(INIT, signup);
    assert s1.tokens == [Token(2, 1, 100, false, None)];
    var s2 := Do(s1, read);
    assert s2.calls == map[0 := Waiting(2, Snapshot(false, false))];
    RunOne(s2, logout, []);
    RunOne(s1, read, [logout]);
    RunOne(INIT, signup, [read, logout]);
    before := [signup] + [read, logout];
    assert [read] + [logout] == [read, logout] && [logout] + [] == [logout];
    OutlivesRevocationIff(before, 1, t);
    var s := Do(s2, logout);
    assert MaySucceed(s, 1, 0) && (InTime(s, 0, t) <==> t <= 100);
  }

  // ---------------------------------------------------------------------------------------
  // What a successful refresh had read
  // ---------------------------------------------------------------------------------------

  /** Action i is the read of call c, of that token: its session was revoked, its user deleted or suspended, as said. */
  predicate ReadAs(actions: seq<Action>, i: nat, c: nat, token: Id, revoked: bool, blocked: bool) {
    && i < |actions| && actions[i] == Read(token) && Run(INIT, actions[..i]).Some?
    && var s := Run(INIT, actions[..i]).value;
    && s.begun == c && HasToken(s, token) && TokenRow(s, token).session in s.sessions
    && var session := s.sessions[TokenRow(s, token).session];
    && session.revoked == revoked && session.user in s.users
    && (s.users[session.user].deleted || s.users[session.user].suspended) == blocked
  }

  ghost predicate CallRead(actions: seq<Action>, c: nat, call: Call) {
    exists i :: ReadAs(actions, i, c, call.token, call.seen.sessionRevoked, call.seen.userBlocked)
  }

  ghost predicate CleanRead(actions: seq<Action>, e: Success) {
    exists i :: ReadAs(actions, i, e.call, e.token, false, false)
  }

  /** Calls under way saw what was there when they read, and those that succeeded saw nothing against it. */
  ghost predicate ReadsHold(actions: seq<Action>, s: State) {
    && (forall c :: c in s.calls ==> CallRead(actions, c, s.calls[c]))
    && forall k :: 0 <= k < |s.log| ==> CleanRead(actions, s.log[k])
  }

  lemma ReadLasts(actions: seq<Action>, a: Action, i: nat, c: nat, token: Id, revoked: bool, blocked: bool)
    requires ReadAs(actions, i, c, token, revoked, blocked)
    ensures ReadAs(actions + [a], i, c, token, revoked, blocked)
  {
    assert (actions + [a])[..i] == actions[..i];
  }

  lemma CallLasts(actions: seq<Action>, a: Action, c: nat, call: Call)
    requires CallRead(actions, c, call)
    ensures CallRead(actions + [a], c, call)
  {
    var i :| ReadAs(actions, i, c, call.token, call.seen.sessionRevoked, call.seen.userBlocked);
    ReadLasts(actions, a, i, c, call.token, call.seen.sessionRevoked, call.seen.userBlocked);
  }

  lemma CleanLasts(actions: seq<Action>, a: Action, e: Success)
    requires CleanRead(actions, e)
    ensures CleanRead(actions + [a], e)
  {
    var i :| ReadAs(actions, i, e.call, e.token, false, false);
    ReadLasts(actions, a, i, e.call, e.token, false, false);
  }

  lemma JustRead(actions: seq<Action>, s: State, token: Id)
    requires Run(INIT, actions) == Some(s) && Enabled(s, Read(token))
    ensures CallRead(actions + [Read(token)], s.begun, Waiting(token, SnapshotOf(s, token)))
  {
    var all, i := actions + [Read(token)], |actions|;
    assert all[..i] == actions;
    var seen := SnapshotOf(s, token);
    assert ReadAs(all, i, s.begun, token, seen.sessionRevoked, seen.userBlocked);
  }

  lemma ReadsStep(actions: seq<Action>, s: State, a: Action)
    requires Run(INIT, actions) == Some(s) && Enabled(s, a) && ReadsHold(actions, s)
    ensures ReadsHold(actions + [a], Do(s, a))
  {
    var s' := Do(s, a);
    forall c | c in s'.calls ensures CallRead(actions + [a], c, s'.calls[c]) {
      CallOrigin(s, a, c);
      if c in s.calls && !(a.Read? && c == s.begun) {
        CallLasts(actions, a, c, s.calls[c]);
      } else {
        JustRead(actions, s, a.token);
      }
    }
    LogOrigin(s, a);
    forall k | 0 <= k < |s'.log| ensures CleanRead(actions + [a], s'.log[k]) {
      if k == |s.log| {
        CallLasts(actions, a, a.call, s.calls[a.call]);
      } else {
        CleanLasts(actions, a, s.log[k]);
      }
    }
  }

  lemma {:induction false} RunReads(actions: seq<Action>)
    requires Run(INIT, actions).Some?
    ensures ReadsHold(actions, Run(INIT, actions).value)
  {
    if actions != [] {
      var init, last := actions[..|actions| - 1], actions[|actions| - 1];
      assert actions == init + [last];
      RunInit(INIT, init, last);
      RunReads(init);
      ReadsStep(init, Run(INIT, init).value, last);
    }
  }

  lemma {:induction false} RunInit(s: State, init: seq<Action>, last: Action)
    requires Run(s, init + [last]).Some?
    ensures Run(s, init).Some? && Enabled(Run(s, init).value, last)
    ensures Run(s, init + [last]).value == Do(Run(s, init).value, last)
    decreases |init|
  {
    if init == [] {
      assert init + [last] == [last] && [last][1..] == [];
    } else {
      assert (init + [last])[1..] == init[1..] + [last];
      RunInit(Do(s, init[0]), init[1..], last);
    }
  }

  /**
   * In every run a refresh that succeeded is that of a call which, when it read, found the session of the
   * token unrevoked and its user neither deleted nor suspended.
   */
  lemma SuccessReadClean(actions: seq<Action>, k: nat) returns (i: nat)
    requires Run(INIT, actions).Some? && k < |Run(INIT, actions).value.log|
    ensures var e := Run(INIT, actions).value.log[k]; ReadAs(actions, i, e.call, e.token, false, false)
  {
    RunReads(actions);
    var e := Run(INIT, actions).value.log[k];
    assert CleanRead(actions, e);
    i :| ReadAs(actions, i, e.call, e.token, false, false);
  }
}
