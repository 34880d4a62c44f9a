/** Password sign-in under the brute-force lockout, and how fast it lets failures come. */
module Lockout {
  import opened Wrappers

  const MINUTE: nat := 60000000
  const MAX_FAILED_LOGINS: nat := 5
  const FAILURE_WINDOW: nat := 15 * MINUTE
  const LOCKOUT_DURATION: nat := 15 * MINUTE

  /** The row of one email, times in microseconds. */
  datatype Attempt = Attempt(failed: nat, lastFailed: int, lockedUntil: Option<int>)

  /** One recorded failure: when the lock was checked, when the window was computed, when the row was written. */
  datatype Failure = Failure(checked: int, recorded: int, stored: int)

  predicate Locked(row: Option<Attempt>, now: int) {
    row.Some? && row.value.lockedUntil.Some? && now < row.value.lockedUntil.value
  }

  /** The upsert of a failure. */
  function Upsert(row: Option<Attempt>, f: Failure): Attempt {
    if row.None? then Attempt(1, f.stored, None)
    else
      var failed := if row.value.lastFailed < f.recorded - FAILURE_WINDOW then 1 else row.value.failed + 1;
      Attempt(failed, f.stored, if failed >= MAX_FAILED_LOGINS then Some(f.recorded + LOCKOUT_DURATION) else None)
  }

  datatype SignIn = TooManyRequests | InvalidCredentials | AccountInactive | SignedIn

  /** The account an email names: whether its status admits sign-in, and whether the password is its own. */
  datatype Account = Account(admitted: bool, passwordMatches: bool)

  class LoginAttempts {
    var rows: map<string, Attempt>

    constructor ()
      ensures rows == map[]
    {
      rows := map[];
    }

    function RowOf(email: string): Option<Attempt>
      reads this
    {
      if email in rows then Some(rows[email]) else None
    }

    method LoginLockedUntil(email: string, now: int) returns (until: Option<int>)
      ensures until.Some? <==> Locked(RowOf(email), now)
      ensures until.Some? ==> now < until.value && RowOf(email).value.lockedUntil == until
      ensures until == if email in rows && rows[email].lockedUntil.Some? && now < rows[email].lockedUntil.value
                       then rows[email].lockedUntil else None
    {
      if email !in rows || rows[email].lockedUntil.None? {
        return None;
      }
      if now < rows[email].lockedUntil.value {
        return rows[email].lockedUntil;
      }
      return None;
    }

    method RecordFailedLogin(email: string, now: int, stored: int) returns (crossed: bool)
      modifies this
      ensures rows == old(rows)[email := Upsert(old(RowOf(email)), Failure(now, now, stored))]
      ensures crossed <==> rows[email].failed == 5
      ensures rows == old(rows)[email := rows[email]] && rows[email].lastFailed == stored
      ensures email !in old(rows) ==> rows[email].failed == 1 && rows[email].lockedUntil == None
      ensures email in old(rows) && old(rows)[email].lastFailed < now - 15 * MINUTE ==>
        rows[email].failed == 1 && rows[email].lockedUntil == None
      ensures email in old(rows) && old(rows)[email].lastFailed >= now - 15 * MINUTE ==>
        && rows[email].failed == old(rows)[email].failed + 1
        && rows[email].lockedUntil == if rows[email].failed >= 5 then Some(now + 15 * MINUTE) else None
    {
      var windowStart, lockUntil := now - FAILURE_WINDOW, now + LOCKOUT_DURATION;
      var row := Attempt(1, stored, None);
      if email in rows {
        var failed := if rows[email].lastFailed < windowStart then 1 else rows[email].failed + 1;
        row := Attempt(failed, stored, if failed >= MAX_FAILED_LOGINS then Some(lockUntil) else None);
      }
      rows := rows[email := row];
      return row.failed == MAX_FAILED_LOGINS;
    }

    /** The credential check: no account is consulted while the email is locked, and unknown emails count alike. */
    method CheckPassword(email: string, account: Option<Account>, f: Failure) returns (r: SignIn)
      modifies this
      ensures r.TooManyRequests? <==> Locked(old(RowOf(email)), f.checked)
      ensures r.TooManyRequests? || r.AccountInactive? ==> rows == old(rows)
      ensures r.AccountInactive? <==>
        !Locked(old(RowOf(email)), f.checked) && account.Some? && !account.value.admitted
      ensures r.InvalidCredentials? <==> !Locked(old(RowOf(email)), f.checked) &&
                                         (account.None? || (account.value.admitted && !account.value.passwordMatches))
      ensures r.InvalidCredentials? ==> rows == old(rows)[email := Upsert(old(RowOf(email)), f)]
      ensures r.SignedIn? ==> rows == old(rows) - {email}
    {
      var locked := LoginLockedUntil(email, f.checked);
      if locked.Some? {
        return TooManyRequests;
      }
      if account.None? {
        var _ := RecordFailedLogin(email, f.recorded, f.stored);
        return InvalidCredentials;
      }
      if !account.value.admitted {
        return AccountInactive;
      }
      if !account.value.passwordMatches {
        var _ := RecordFailedLogin(email, f.recorded, f.stored);
        return InvalidCredentials;
      }
      rows := rows - {email};
      return SignedIn;
    }
  }

  // ---------------------------------------------------------------------------------------
  // The rate of failures
  // ---------------------------------------------------------------------------------------

  function After(row: Option<Attempt>, failures: seq<Failure>): Option<Attempt> {
    if failures == [] then row
    else Some(Upsert(After(row, failures[..|failures| - 1]), failures[|failures| - 1]))
  }

  predicate NotLockedAt(row: Option<Attempt>, failures: seq<Failure>, i: nat)
    requires i < |failures|
  {
    !Locked(After(row, failures[..i]), failures[i].checked)
  }

  /** Calls one after the other, each a recorded failure, with no successful sign-in between. */
  predicate InSequence(row: Option<Attempt>, failures: seq<Failure>) {
    && (forall i :: 0 <= i < |failures| ==> failures[i].checked <= failures[i].recorded <= failures[i].stored)
    && (forall i :: 0 <= i < |failures| ==> NotLockedAt(row, failures, i))
    && forall i, k :: 0 <= i < k < |failures| ==> failures[i].stored <= failures[k].checked
  }

  predicate Restarts(failures: seq<Failure>, i: nat)
    requires 0 < i < |failures|
  {
    failures[i - 1].stored < failures[i].recorded - FAILURE_WINDOW
  }

  /** Without a pause as long as the window every failure counts. */
  lemma {:induction false} AllCount(row: Option<Attempt>, failures: seq<Failure>, n: nat)
    requires 0 < n <= |failures| && forall i :: 0 < i < n ==> !Restarts(failures, i)
    ensures After(row, failures[..n]).Some? && After(row, failures[..n]).value.failed >= n
    ensures After(row, failures[..n]) == Some(Upsert(After(row, failures[..n - 1]), failures[n - 1]))
    ensures After(row, failures[..n]).value.lastFailed == failures[n - 1].stored
    decreases n
  {
    assert failures[..n][..n - 1] == failures[..n - 1];
    if n > 1 {
      AllCount(row, failures, n - 1);
      assert !Restarts(failures, n - 1);
    }
  }

  /** Any six failures recorded in a row span fifteen minutes: one comes after a long pause or after a lock. */
  lemma SixFailuresSpan(row: Option<Attempt>, failures: seq<Failure>)
    requires InSequence(row, failures) && |failures| == 6
    ensures failures[5].recorded - failures[0].recorded >= LOCKOUT_DURATION
  {
    if i :| 0 < i < 5 && Restarts(failures, i) {
      assert failures[0].stored <= failures[i - 1].stored && failures[i].recorded <= failures[5].recorded;
    } else {
      AllCount(row, failures, 5);
      assert NotLockedAt(row, failures, 5);
      assert failures[0].stored <= failures[4].checked;
    }
  }

  lemma {:induction false} AfterJoin(row: Option<Attempt>, a: seq<Failure>, b: seq<Failure>)
    ensures After(row, a + b) == After(After(row, a), b)
  {
    if b == [] {
      assert a + b == a;
    } else {
      AfterJoin(row, a, b[..|b| - 1]);
      assert (a + b)[..|a + b| - 1] == a + b[..|b| - 1];
    }
  }

  lemma InSequenceFrom(row: Option<Attempt>, failures: seq<Failure>, m: nat, n: nat)
    requires InSequence(row, failures) && m <= n <= |failures|
    ensures InSequence(After(row, failures[..m]), failures[m..n])
  {
    forall i | 0 <= i < n - m ensures NotLockedAt(After(row, failures[..m]), failures[m..n], i) {
      NotLockedFrom(row, failures, m, n, i);
    }
  }

  lemma NotLockedFrom(row: Option<Attempt>, failures: seq<Failure>, m: nat, n: nat, i: nat)
    requires m + i < n <= |failures| && NotLockedAt(row, failures, m + i)
    ensures NotLockedAt(After(row, failures[..m]), failures[m..n], i)
  {
    AfterJoin(row, failures[..m], failures[m..n][..i]);
    assert failures[..m] + failures[m..n][..i] == failures[..m + i];
  }

  /** Of an endless run of failures at most five are recorded in each fifteen minutes. */
  lemma {:induction false} FailureRate(row: Option<Attempt>, failures: seq<Failure>, k: nat)
    requires InSequence(row, failures) && |failures| == 5 * k + 1
    ensures failures[5 * k].recorded - failures[0].recorded >= k * LOCKOUT_DURATION
    decreases k
  {
    if k > 0 {
      var m := 5 * (k - 1);
      InSequenceFrom(row, failures, 0, m + 1);
      assert failures[..0] == [] && After(row, []) == row;
      FailureRate(row, failures[0..m + 1], k - 1);
      InSequenceFrom(row, failures, m, m + 6);
      SixFailuresSpan(After(row, failures[..m]), failures[m..m + 6]);
      assert k * LOCKOUT_DURATION == (k - 1) * LOCKOUT_DURATION + LOCKOUT_DURATION;
    }
  }
}
