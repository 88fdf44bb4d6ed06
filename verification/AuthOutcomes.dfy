/** When each authentication command goes through, what it answers otherwise, and what it leaves behind. */
module AuthOutcomes {
  import opened Wrappers
  import opened Sequences
  import opened AuthTables
  import opened AuthRuns
  import opened AuthLockout

  // ----------------------------------------------------------------- login

  /** The password is right and the account may log in. */
  predicate Admitted(t: Tables, r: LoginRequest) {
    && r.allowed && r.user < |t.users| && t.users[r.user].password == r.password
    && t.users[r.user].status == ActiveUser && !LockedAt(t.users[r.user], r.now)
  }

  predicate HasActive(t: Tables, user: nat) {
    exists m :: 0 <= m < |t.memberships| && t.memberships[m].user == user && t.memberships[m].status == ActiveMembership
  }

  ghost predicate CanOpen(t: Tables, r: LoginRequest) {
    exists m: nat :: Opens(t, r.user, r.org, m)
  }

  lemma NoChoiceIff(t: Tables, user: nat, org: Option<nat>)
    ensures ChooseMembership(t, user, org).None? <==> !exists m: nat :: Opens(t, user, org, m)
    ensures |Matching(t.memberships, ActiveOf(user))| == 0 <==> !HasActive(t, user)
  {
    ChosenIsOpened(t, user, org);
    var rows := Matching(t.memberships, ActiveOf(user));
    if HasActive(t, user) {
      var m :| 0 <= m < |t.memberships| && t.memberships[m].user == user && t.memberships[m].status == ActiveMembership;
      assert m in rows;
    }
    if rows != [] {
      assert rows[0] in rows;
    }
  }

  /**
   The session a login opens: in the membership asked for, or the user's only active one; alone in a new
   family, under the token drawn for it, for the full lifetime. The failures before it are forgotten.
   */
  lemma LoginWrites(t: Tables, s: Settings, r: LoginRequest)
    requires Login(t, s, r).answer.Authenticated?
    ensures Login(t, s, r).answer == Authenticated(|t.sessions|) && r.user < |t.users|
    ensures var t', n := Login(t, s, r).tables, |t.sessions|;
      && |t'.sessions| == n + 1 && Opens(t, r.user, r.org, t'.sessions[n].membership)
      && t' == Tables(t.users[r.user := t.users[r.user].(failedLoginAttempts := 0, lockedUntil := None)], t.memberships,
                      t.sessions + [Session(r.user, t'.sessions[n].membership, n, Digest(r.token), ActiveSession,
                                            r.now + s.refreshTtlMs, r.now)])
  {
    ChosenIsOpened(t, r.user, r.org);
  }

  /** What any other login answers. */
  lemma LoginAnswers(t: Tables, s: Settings, r: LoginRequest)
    requires !Login(t, s, r).answer.Authenticated?
    ensures Login(t, s, r).answer
      == if !r.allowed then Refused(RateLimited)
         else if Admitted(t, r) && r.org.None? && HasActive(t, r.user) && !CanOpen(t, r) then OrganizationRequired
         else if Admitted(t, r) && CanOpen(t, r) then
           (if r.totpCode.None? then Refused(TotpRequired) else Refused(TotpInvalid))
         else Refused(AuthFailure)
  {
    NoChoiceIff(t, r.user, r.org);
    OpenIsActive(t, r);
    hide CanOpen, HasActive, ChooseMembership;
  }

  lemma OpenIsActive(t: Tables, r: LoginRequest)
    ensures CanOpen(t, r) ==> HasActive(t, r.user)
    ensures CanOpen(t, r) <==> exists m: nat :: Opens(t, r.user, r.org, m)
  {
    if CanOpen(t, r) {
      var m: nat :| Opens(t, r.user, r.org, m);
      assert t.memberships[m].user == r.user;
    }
  }

  /** All but a blocked attempt, a choice still to make and a missing code count; nothing else is written. */
  lemma UnsuccessfulLoginWrites(t: Tables, s: Settings, r: LoginRequest)
    requires !Login(t, s, r).answer.Authenticated?
    ensures Login(t, s, r).tables
      == if r.user < |t.users| && Login(t, s, r).answer in {Refused(AuthFailure), Refused(TotpInvalid)}
         then var u := t.users[r.user]; var failures := u.failedLoginAttempts + 1;
              t.(users := t.users[r.user := u.(
                failedLoginAttempts := failures,
                lockedUntil := if failures >= s.maxAttempts then Some(r.now + s.lockoutMs) else None)])
         else t
  {
    hide ChooseMembership;
  }

  // --------------------------------------------------------------- refresh

  /** A refresh renews the hash, the use and the whole lifetime of its session, and touches nothing else. */
  lemma RefreshWrites(t: Tables, s: Settings, presented: nat, next: nat, allowed: bool, now: int)
    requires Refresh(t, s, presented, next, allowed, now).answer.Refreshed?
    ensures var t', i := Refresh(t, s, presented, next, allowed, now).tables, Refresh(t, s, presented, next, allowed, now).answer.session;
      && Presents(t, presented, i)
      && var x := t.sessions[i];
      t' == t.(sessions := t.sessions[i := Session(x.user, x.membership, x.family, Digest(next), ActiveSession,
                                                   now + s.refreshTtlMs, now)])
  {
  }

  /** The sessions after those of one family, or of one user but one, have been revoked. */
  predicate RevokedWhere(before: seq<Session>, after: seq<Session>, hit: nat -> bool) {
    && |after| == |before|
    && forall i: nat :: i < |before| ==>
         after[i] == if hit(i) && before[i].status == ActiveSession then before[i].(status := RevokedSession) else before[i]
  }

  /** What a refused refresh answers and writes. A revoked session takes its family with it, an overdue one expires. */
  lemma RefusedRefreshWrites(t: Tables, s: Settings, presented: nat, next: nat, allowed: bool, now: int, i: nat)
    requires Presents(t, presented, i) && Refresh(t, s, presented, next, allowed, now).answer.Refused?
    ensures var r, x := Refresh(t, s, presented, next, allowed, now), t.sessions[i];
      && r.tables.users == t.users && r.tables.memberships == t.memberships
      && if !allowed then r == Outcome(t, Refused(RateLimited))
         else match x.status
           case RevokedSession =>
             r.answer == Refused(InvalidRefresh)
             && RevokedWhere(t.sessions, r.tables.sessions, j => 0 <= j < |t.sessions| && t.sessions[j].family == x.family)
           case ExpiredSession => r == Outcome(t, Refused(InvalidRefresh))
           case ActiveSession =>
             if x.expiresAt <= now then
               r == Outcome(t.(sessions := t.sessions[i := x.(status := ExpiredSession)]), Refused(InvalidRefresh))
             else if x.membership >= |t.memberships| || t.memberships[x.membership].user >= |t.users| then
               r == Outcome(t.(sessions := t.sessions[i := x.(status := RevokedSession)]), Refused(InvalidRefresh))
             else
               var u := t.users[t.memberships[x.membership].user];
               r == Outcome(t, Refused(if u.status != ActiveUser then UserInactive
                                       else if LockedAt(u, now) then UserLocked else MembershipInactive))
  {
    PresentedIsFound(t, presented, i);
  }

  lemma UnknownTokenIsRefused(t: Tables, s: Settings, presented: nat, next: nat, allowed: bool, now: int)
    requires forall i :: 0 <= i < |t.sessions| ==> t.sessions[i].hash != Digest(presented)
    ensures Refresh(t, s, presented, next, allowed, now) == Outcome(t, Refused(if allowed then InvalidRefresh else RateLimited))
  {
  }

  // ------------------------------------------------------------ revocation

  lemma LogoutWrites(t: Tables, session: nat)
    ensures Logout(t, session).answer == Done
    ensures Logout(t, session).tables
      == if session < |t.sessions| then t.(sessions := t.sessions[session := t.sessions[session].(status := RevokedSession)]) else t
  {
  }

  /** Every session of the user that is open, but the one excepted, is revoked. */
  lemma LogoutAllWrites(t: Tables, user: nat, except: Option<nat>)
    ensures LogoutAll(t, user, except).answer == Done
    ensures var t' := LogoutAll(t, user, except).tables;
      && t'.users == t.users && t'.memberships == t.memberships
      && RevokedWhere(t.sessions, t'.sessions, i => 0 <= i < |t.sessions| && t.sessions[i].user == user && Some(i) != except)
  {
  }

  /** Only a session of one's own can be revoked. */
  lemma RevokeSucceedsIff(t: Tables, user: nat, session: nat)
    ensures RevokeOwnSession(t, user, session).answer
      == if session < |t.sessions| && t.sessions[session].user == user then Done else Refused(SessionNotFound)
    ensures RevokeOwnSession(t, user, session).tables
      == if session < |t.sessions| && t.sessions[session].user == user
         then t.(sessions := t.sessions[session := t.sessions[session].(status := RevokedSession)]) else t
  {
  }

  // ------------------------------------------------------- user management

  predicate BelongsTo(t: Tables, org: nat, user: nat) {
    user < |t.users| && exists m :: 0 <= m < |t.memberships| && t.memberships[m].user == user && t.memberships[m].org == org
  }

  lemma BelongsIff(t: Tables, org: nat, user: nat)
    ensures HasMembership(t, org, user) <==> BelongsTo(t, org, user)
  {
    assert forall m :: 0 <= m < |t.memberships| ==>
      (OfUserIn(user, org)(t.memberships[m]) <==> t.memberships[m].user == user && t.memberships[m].org == org);
  }

  /** One user's row has been rewritten, and the user's sessions but the excepted one have been revoked. */
  predicate Rewrote(t: Tables, t': Tables, user: nat, u: User, except: Option<nat>) {
    && user < |t.users| && t'.users == t.users[user := u] && t'.memberships == t.memberships
    && RevokedWhere(t.sessions, t'.sessions, i => 0 <= i < |t.sessions| && t.sessions[i].user == user && Some(i) != except)
  }

  /** A password of ten characters replaces the current one, and ends every session but the one it was changed from. */
  lemma ChangePasswordSucceedsIff(t: Tables, user: nat, session: nat, current: string, next: string)
    ensures var r := ChangePassword(t, user, session, current, next);
      if |next| < 10 then r == Outcome(t, Refused(WeakPassword))
      else if user >= |t.users| then r == Outcome(t, Refused(UserNotFound))
      else if t.users[user].password != current then r == Outcome(t, Refused(InvalidPassword))
      else r.answer == Done && Rewrote(t, r.tables, user, t.users[user].(password := next), Some(session))
  {
  }

  lemma ResetPasswordSucceedsIff(t: Tables, org: nat, user: nat, next: string)
    ensures var r := ResetPassword(t, org, user, next);
      if |next| < 10 then r == Outcome(t, Refused(WeakPassword))
      else if !BelongsTo(t, org, user) then r == Outcome(t, Refused(UserNotFound))
      else r.answer == Done && Rewrote(t, r.tables, user, t.users[user].(password := next), None)
  {
    BelongsIff(t, org, user);
  }

  /** Blocking and archiving are the same call with another status. */
  lemma DeactivateSucceedsIff(t: Tables, org: nat, user: nat, status: UserStatus)
    ensures var r := Deactivate(t, org, user, status);
      if !BelongsTo(t, org, user) then r == Outcome(t, Refused(UserNotFound))
      else r.answer == Done && Rewrote(t, r.tables, user, t.users[user].(status := status), None)
  {
    BelongsIff(t, org, user);
  }

  /** Unblocking opens no session again, and forgives no failure. */
  lemma UnblockSucceedsIff(t: Tables, org: nat, user: nat)
    ensures Unblock(t, org, user)
      == if BelongsTo(t, org, user) then Outcome(t.(users := t.users[user := t.users[user].(status := ActiveUser)]), Done)
         else Outcome(t, Refused(UserNotFound))
  {
    BelongsIff(t, org, user);
  }
}
