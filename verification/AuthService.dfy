/** The authentication commands as they run, write by write; every method does what its function says. */
module AuthService {
  import opened Wrappers
  import opened Sequences
  import opened AuthTables

  class AuthDatabase {
    var users: seq<User>
    var memberships: seq<Membership>
    var sessions: seq<Session>
    const settings: Settings

    function Db(): Tables
      reads this
    {
      Tables(users, memberships, sessions)
    }

    constructor (s: Settings)
      ensures Db() == EMPTY && settings == s
    {
      users, memberships, sessions, settings := [], [], [], s;
    }

    // ------------------------------------------------------ session repository

    method SetSessionStatus(i: nat, status: SessionStatus)
      requires i < |sessions|
      modifies this`sessions
      ensures Db() == SetSession(old(Db()), i, status)
    {
      sessions := sessions[i := sessions[i].(status := status)];
    }

    method RevokeUserSessions(user: nat, except: Option<nat>)
      modifies this`sessions
      ensures Db() == RevokeAllUserSessions(old(Db()), user, except)
    {
      ghost var before := sessions;
      for i := 0 to |sessions|
        invariant |sessions| == |before|
        invariant forall x :: 0 <= x < i ==> sessions[x] == RevokedRow(before[x], x, user, except)
        invariant forall x :: i <= x < |before| ==> sessions[x] == before[x]
      {
        if sessions[i].user == user && sessions[i].status.ActiveSession? && except != Some(i) {
          sessions := sessions[i := sessions[i].(status := RevokedSession)];
        }
      }
      assert sessions == RevokeWhere(before, user, except);
    }

    method RevokeSessionFamily(family: nat)
      modifies this`sessions
      ensures Db() == RevokeFamily(old(Db()), family)
    {
      ghost var before := sessions;
      for i := 0 to |sessions|
        invariant |sessions| == |before|
        invariant forall x :: 0 <= x < i ==> sessions[x] == RevokeFamilyRows(before, family)[x]
        invariant forall x :: i <= x < |before| ==> sessions[x] == before[x]
      {
        if sessions[i].family == family && sessions[i].status.ActiveSession? {
          sessions := sessions[i := sessions[i].(status := RevokedSession)];
        }
      }
    }

    // ------------------------------------------------------------------ login

    /** fail: counts the attempt, sets or clears the lock, and refuses. */
    method FailLogin(user: nat, error: Error, now: int) returns (answer: Answer)
      requires user < |users|
      modifies this`users
      ensures Outcome(Db(), answer) == CountFailure(old(Db()), settings, user, error, now)
    {
      var attempts := users[user].failedLoginAttempts + 1;
      users := users[user := users[user].(failedLoginAttempts := attempts, lockedUntil := ComputeLockUntil(attempts, settings, now))];
      answer := Refused(error);
    }

    method LogIn(r: LoginRequest) returns (answer: Answer)
      modifies this
      ensures Outcome(Db(), answer) == Login(old(Db()), settings, r)
    {
      if !r.allowed {
        return Refused(RateLimited);
      }
      if r.user >= |users| {
        return Refused(AuthFailure);
      }
      var u := users[r.user];
      if r.password != u.password || AssertUserCanAuthenticate(u, r.now).Fail? {
        answer := FailLogin(r.user, AuthFailure, r.now);
        return;
      }
      var active := Matching(memberships, ActiveOf(r.user));
      if |active| == 0 {
        answer := FailLogin(r.user, AuthFailure, r.now);
        return;
      }
      var m := ChooseMembership(Db(), r.user, r.org);
      if m.None? {
        if r.org.None? {
          return OrganizationRequired;
        }
        answer := FailLogin(r.user, AuthFailure, r.now);
        return;
      }
      if u.totpEnabled {
        if r.totpCode.None? {
          return Refused(TotpRequired);
        }
        if !r.totpCode.value {
          answer := FailLogin(r.user, TotpInvalid, r.now);
          return;
        }
      }
      users := users[r.user := u.(failedLoginAttempts := 0, lockedUntil := None)];
      answer := Authenticated(|sessions|);
      sessions := sessions + [Session(r.user, m.value, |sessions|, Digest(r.token), ActiveSession,
                                      r.now + settings.refreshTtlMs, r.now)];
    }

    // ---------------------------------------------------------------- refresh

    method RefreshTokens(presented: nat, next: nat, allowed: bool, now: int) returns (answer: Answer)
      modifies this
      ensures Outcome(Db(), answer) == Refresh(old(Db()), settings, presented, next, allowed, now)
    {
      var found := FindByRefreshHash(Db(), Digest(presented));
      if !allowed {
        return Refused(RateLimited);
      }
      if found.None? {
        return Refused(InvalidRefresh);
      }
      var i, x := found.value, sessions[found.value];
      if x.status.RevokedSession? {
        RevokeSessionFamily(x.family);
        return Refused(InvalidRefresh);
      }
      if !x.status.ActiveSession? || x.expiresAt <= now {
        if x.status.ActiveSession? && x.expiresAt <= now {
          SetSessionStatus(i, ExpiredSession);
        }
        return Refused(InvalidRefresh);
      }
      if x.membership >= |memberships| || memberships[x.membership].user >= |users| {
        SetSessionStatus(i, RevokedSession);
        return Refused(InvalidRefresh);
      }
      var m := memberships[x.membership];
      var allowedUser := AssertUserCanAuthenticate(users[m.user], now);
      if allowedUser.Fail? {
        return Refused(allowedUser.error);
      }
      if !m.status.ActiveMembership? {
        return Refused(MembershipInactive);
      }
      sessions := sessions[i := x.(hash := Digest(next), expiresAt := now + settings.refreshTtlMs, lastUsedAt := now)];
      answer := Refreshed(i);
    }

    // -------------------------------------------------------------- revocation

    method LogOut(session: nat) returns (answer: Answer)
      modifies this
      ensures Outcome(Db(), answer) == Logout(old(Db()), session)
    {
      answer := Done;
      if session < |sessions| {
        SetSessionStatus(session, RevokedSession);
      }
    }

    method LogOutAll(user: nat, except: Option<nat>) returns (answer: Answer)
      modifies this
      ensures Outcome(Db(), answer) == LogoutAll(old(Db()), user, except)
    {
      RevokeUserSessions(user, except);
      answer := Done;
    }

    method RevokeSession(user: nat, session: nat) returns (answer: Answer)
      modifies this
      ensures Outcome(Db(), answer) == RevokeOwnSession(old(Db()), user, session)
    {
      if session >= |sessions| || sessions[session].user != user {
        return Refused(SessionNotFound);
      }
      SetSessionStatus(session, RevokedSession);
      answer := Done;
    }

    method ChangeOwnPassword(user: nat, session: nat, current: string, next: string) returns (answer: Answer)
      modifies this
      ensures Outcome(Db(), answer) == ChangePassword(old(Db()), user, session, current, next)
    {
      if !StrongPassword(next) {
        return Refused(WeakPassword);
      }
      if user >= |users| {
        return Refused(UserNotFound);
      }
      if users[user].password != current {
        return Refused(InvalidPassword);
      }
      users := users[user := users[user].(password := next)];
      RevokeUserSessions(user, Some(session));
      answer := Done;
    }

    // --------------------------------------------------------- user management

    method DeactivateUser(org: nat, user: nat, status: UserStatus) returns (answer: Answer)
      modifies this
      ensures Outcome(Db(), answer) == Deactivate(old(Db()), org, user, status)
    {
      if !HasMembership(Db(), org, user) {
        return Refused(UserNotFound);
      }
      users := users[user := users[user].(status := status)];
      RevokeUserSessions(user, None);
      answer := Done;
    }

    method UnblockUser(org: nat, user: nat) returns (answer: Answer)
      modifies this
      ensures Outcome(Db(), answer) == Unblock(old(Db()), org, user)
    {
      if !HasMembership(Db(), org, user) {
        return Refused(UserNotFound);
      }
      users := users[user := users[user].(status := ActiveUser)];
      answer := Done;
    }

    method ResetUserPassword(org: nat, user: nat, next: string) returns (answer: Answer)
      modifies this
      ensures Outcome(Db(), answer) == ResetPassword(old(Db()), org, user, next)
    {
      if !StrongPassword(next) {
        return Refused(WeakPassword);
      }
      if !HasMembership(Db(), org, user) {
        return Refused(UserNotFound);
      }
      users := users[user := users[user].(password := next)];
      RevokeUserSessions(user, None);
      answer := Done;
    }
  }
}
