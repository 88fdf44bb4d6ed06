/**
 Users, memberships and sessions, and the authentication commands over them. login is made of separate
 writes in the source; here each command is one serial step. Refresh tokens are numbers drawn by the caller.
 */
module AuthTables {
  import opened Wrappers
  import opened Sequences

  datatype UserStatus = ActiveUser | BlockedUser | ArchivedUser

  datatype User = User(
    status: UserStatus, failedLoginAttempts: nat, lockedUntil: Option<int>, password: string, totpEnabled: bool)

  datatype MembershipStatus = ActiveMembership | SuspendedMembership | ArchivedMembership

  datatype Membership = Membership(user: nat, org: nat, status: MembershipStatus)

  /** The keyed hash of a refresh token: distinct tokens have distinct hashes. */
  datatype Digest = Digest(token: nat)

  datatype SessionStatus = ActiveSession | RevokedSession | ExpiredSession

  datatype Session = Session(
    user: nat, membership: nat, family: nat, hash: Digest, status: SessionStatus, expiresAt: int, lastUsedAt: int)

  datatype Tables = Tables(users: seq<User>, memberships: seq<Membership>, sessions: seq<Session>)

  const EMPTY := Tables([], [], [])

  datatype Settings = Settings(maxAttempts: nat, lockoutMs: int, refreshTtlMs: int)

  datatype Error =
    | RateLimited
    | AuthFailure
    | TotpRequired
    | TotpInvalid
    | InvalidRefresh
    | UserInactive
    | UserLocked
    | MembershipInactive
    | SessionNotFound
    | UserNotFound
    | InvalidPassword
    | WeakPassword

  datatype Answer =
    | Done
    | Authenticated(session: nat)
    | Refreshed(session: nat)
    | OrganizationRequired
    | Refused(error: Error)

  /** A refused call may still have written: a failed login counts itself. */
  datatype Outcome = Outcome(tables: Tables, answer: Answer)

  function OrFail(t: Tables, error: Error): Outcome {
    Outcome(t, Refused(error))
  }

  // ----------------------------------------------------------------- rules

  function AssertUserCanAuthenticate(u: User, now: int): Check<Error> {
    if !u.status.ActiveUser? then Fail(UserInactive)
    else if u.lockedUntil.Some? && u.lockedUntil.value > now then Fail(UserLocked)
    else Pass
  }

  function ComputeLockUntil(failedAttempts: nat, s: Settings, now: int): Option<int> {
    if failedAttempts < s.maxAttempts then None else Some(now + s.lockoutMs)
  }

  predicate StrongPassword(password: string) {
    |password| >= 10
  }

  // -------------------------------------------------------------- sessions

  function WithHash(hash: Digest): Session -> bool {
    (x: Session) => x.hash == hash
  }

  /** The newest session with the hash. */
  function FindByRefreshHash(t: Tables, hash: Digest): (row: Option<nat>)
    ensures row.Some? ==> row.value < |t.sessions| && t.sessions[row.value].hash == hash
    ensures row.None? ==> forall i :: 0 <= i < |t.sessions| ==> t.sessions[i].hash != hash
  {
    var rows := Matching(t.sessions, WithHash(hash));
    if rows == [] then None
    else
      assert rows[|rows| - 1] in rows;
      Some(rows[|rows| - 1])
  }

  function SetSession(t: Tables, i: nat, status: SessionStatus): Tables
    requires i < |t.sessions|
  {
    t.(sessions := t.sessions[i := t.sessions[i].(status := status)])
  }

  function RevokedRow(x: Session, i: nat, user: nat, except: Option<nat>): Session {
    if x.user == user && x.status.ActiveSession? && except != Some(i) then x.(status := RevokedSession) else x
  }

  function RevokeWhere(sessions: seq<Session>, user: nat, except: Option<nat>): (r: seq<Session>)
    ensures |r| == |sessions|
  {
    seq(|sessions|, i requires 0 <= i < |sessions| => RevokedRow(sessions[i], i, user, except))
  }

  function RevokeAllUserSessions(t: Tables, user: nat, except: Option<nat>): Tables {
    t.(sessions := RevokeWhere(t.sessions, user, except))
  }

  function RevokeFamilyRows(sessions: seq<Session>, family: nat): (r: seq<Session>)
    ensures |r| == |sessions|
  {
    seq(|sessions|, i requires 0 <= i < |sessions| =>
      if sessions[i].family == family && sessions[i].status.ActiveSession?
      then sessions[i].(status := RevokedSession) else sessions[i])
  }

  function RevokeFamily(t: Tables, family: nat): Tables {
    t.(sessions := RevokeFamilyRows(t.sessions, family))
  }

  /** Every session is opened in a family of its own. */
  function OpenSession(t: Tables, s: Settings, user: nat, membership: nat, token: nat, now: int): Tables {
    t.(sessions := t.sessions
       + [Session(user, membership, |t.sessions|, Digest(token), ActiveSession, now + s.refreshTtlMs, now)])
  }

  // ----------------------------------------------------------------- login

  /** The login names a stored user or none; the code was left out, or was right, or was wrong. */
  datatype LoginRequest = LoginRequest(
    user: nat, org: Option<nat>, password: string, totpCode: Option<bool>, allowed: bool, token: nat, now: int)

  function CountFailure(t: Tables, s: Settings, user: nat, error: Error, now: int): Outcome
    requires user < |t.users|
  {
    var u := t.users[user];
    var attempts := u.failedLoginAttempts + 1;
    var u' := u.(failedLoginAttempts := attempts, lockedUntil := ComputeLockUntil(attempts, s, now));
    Outcome(t.(users := t.users[user := u']), Refused(error))
  }

  function ActiveOf(user: nat): Membership -> bool {
    (m: Membership) => m.user == user && m.status.ActiveMembership?
  }

  function ActiveIn(user: nat, org: nat): Membership -> bool {
    (m: Membership) => m.user == user && m.org == org && m.status.ActiveMembership?
  }

  /** The membership asked for, or the only one. */
  function ChooseMembership(t: Tables, user: nat, org: Option<nat>): (m: Option<nat>)
    ensures m.Some? ==> m.value < |t.memberships| && ActiveOf(user)(t.memberships[m.value])
  {
    if org.Some? then FindFirst(t.memberships, ActiveIn(user, org.value))
    else
      var active := Matching(t.memberships, ActiveOf(user));
      assert |active| == 1 ==> active[0] in active;
      if |active| == 1 then Some(active[0]) else None
  }

  function Login(t: Tables, s: Settings, r: LoginRequest): Outcome {
    if !r.allowed then OrFail(t, RateLimited)
    else if r.user >= |t.users| then OrFail(t, AuthFailure)
    else
      var u := t.users[r.user];
      var active := |Matching(t.memberships, ActiveOf(r.user))|;
      var m := ChooseMembership(t, r.user, r.org);
      if r.password != u.password then CountFailure(t, s, r.user, AuthFailure, r.now)
      else if AssertUserCanAuthenticate(u, r.now).Fail? then CountFailure(t, s, r.user, AuthFailure, r.now)
      else if active == 0 then CountFailure(t, s, r.user, AuthFailure, r.now)
      else if m.None? && r.org.None? then Outcome(t, OrganizationRequired)
      else if m.None? then CountFailure(t, s, r.user, AuthFailure, r.now)
      else if u.totpEnabled && r.totpCode.None? then OrFail(t, TotpRequired)
      else if u.totpEnabled && !r.totpCode.value then CountFailure(t, s, r.user, TotpInvalid, r.now)
      else
        var t1 := t.(users := t.users[r.user := u.(failedLoginAttempts := 0, lockedUntil := None)]);
        Outcome(OpenSession(t1, s, r.user, m.value, r.token, r.now), Authenticated(|t.sessions|))
  }

  // ------------------------------------------------- refresh and revocation

  function Refresh(t: Tables, s: Settings, presented: nat, next: nat, allowed: bool, now: int): Outcome {
    var found := FindByRefreshHash(t, Digest(presented));
    if !allowed then OrFail(t, RateLimited)
    else if found.None? then OrFail(t, InvalidRefresh)
    else
      var i, x := found.value, t.sessions[found.value];
      if x.status.RevokedSession? then OrFail(RevokeFamily(t, x.family), InvalidRefresh)
      else if x.status.ExpiredSession? then OrFail(t, InvalidRefresh)
      else if x.expiresAt <= now then OrFail(SetSession(t, i, ExpiredSession), InvalidRefresh)
      else if x.membership >= |t.memberships| || t.memberships[x.membership].user >= |t.users| then
        OrFail(SetSession(t, i, RevokedSession), InvalidRefresh)
      else
        var m := t.memberships[x.membership];
        var allowedUser := AssertUserCanAuthenticate(t.users[m.user], now);
        if allowedUser.Fail? then OrFail(t, allowedUser.error)
        else if !m.status.ActiveMembership? then OrFail(t, MembershipInactive)
        else
          var x' := x.(hash := Digest(next), expiresAt := now + s.refreshTtlMs, lastUsedAt := now);
          Outcome(t.(sessions := t.sessions[i := x']), Refreshed(i))
  }

  function Logout(t: Tables, session: nat): Outcome {
    if session < |t.sessions| then Outcome(SetSession(t, session, RevokedSession), Done) else Outcome(t, Done)
  }

  function LogoutAll(t: Tables, user: nat, except: Option<nat>): Outcome {
    Outcome(RevokeAllUserSessions(t, user, except), Done)
  }

  function RevokeOwnSession(t: Tables, user: nat, session: nat): Outcome {
    if session >= |t.sessions| || t.sessions[session].user != user then OrFail(t, SessionNotFound)
    else Outcome(SetSession(t, session, RevokedSession), Done)
  }

  function ChangePassword(t: Tables, user: nat, session: nat, current: string, next: string): Outcome {
    if !StrongPassword(next) then OrFail(t, WeakPassword)
    else if user >= |t.users| then OrFail(t, UserNotFound)
    else if t.users[user].password != current then OrFail(t, InvalidPassword)
    else
      var t1 := t.(users := t.users[user := t.users[user].(password := next)]);
      Outcome(RevokeAllUserSessions(t1, user, Some(session)), Done)
  }

  // ------------------------------------------------------- user management

  function OfUserIn(user: nat, org: nat): Membership -> bool {
    (m: Membership) => m.user == user && m.org == org
  }

  predicate HasMembership(t: Tables, org: nat, user: nat) {
    user < |t.users| && FindFirst(t.memberships, OfUserIn(user, org)).Some?
  }

  function SetUserStatus(t: Tables, user: nat, status: UserStatus): Tables
    requires user < |t.users|
  {
    t.(users := t.users[user := t.users[user].(status := status)])
  }

  /** Block and archive: the status, and the end of every session. */
  function Deactivate(t: Tables, org: nat, user: nat, status: UserStatus): Outcome {
    if !HasMembership(t, org, user) then OrFail(t, UserNotFound)
    else Outcome(RevokeAllUserSessions(SetUserStatus(t, user, status), user, None), Done)
  }

  function Unblock(t: Tables, org: nat, user: nat): Outcome {
    if !HasMembership(t, org, user) then OrFail(t, UserNotFound)
    else Outcome(SetUserStatus(t, user, ActiveUser), Done)
  }

  function ResetPassword(t: Tables, org: nat, user: nat, next: string): Outcome {
    if !StrongPassword(next) then OrFail(t, WeakPassword)
    else if !HasMembership(t, org, user) then OrFail(t, UserNotFound)
    else
      var t1 := t.(users := t.users[user := t.users[user].(password := next)]);
      Outcome(RevokeAllUserSessions(t1, user, None), Done)
  }
}
