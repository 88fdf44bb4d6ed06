/** Whole runs of the authentication commands: sessions, refresh tokens and the login lockout. */
module AuthRuns {
  import opened Wrappers
  import opened Sequences
  import opened AuthTables

  /** The last three stand for the identity module: users and memberships appear and change. */
  datatype Command =
    | LogIn(request: LoginRequest)
    | RefreshToken(presented: nat, next: nat, allowed: bool, now: int)
    | LogOut(session: nat)
    | LogOutAll(user: nat, except: Option<nat>)
    | RevokeSession(user: nat, session: nat)
    | ChangeOwnPassword(user: nat, session: nat, current: string, newPassword: string)
    | ResetUserPassword(org: nat, user: nat, newPassword: string)
    | Block(org: nat, user: nat)
    | UnblockUser(org: nat, user: nat)
    | Archive(org: nat, user: nat)
    | UserAdded(password: string)
    | MembershipSet(row: nat, membership: Membership)
    | TotpSet(user: nat, enabled: bool)

  function Execute(t: Tables, s: Settings, c: Command): Outcome {
    match c
    case LogIn(r) => Login(t, s, r)
    case RefreshToken(presented, next, allowed, now) => Refresh(t, s, presented, next, allowed, now)
    case LogOut(session) => Logout(t, session)
    case LogOutAll(user, except) => LogoutAll(t, user, except)
    case RevokeSession(user, session) => RevokeOwnSession(t, user, session)
    case ChangeOwnPassword(user, session, current, next) => ChangePassword(t, user, session, current, next)
    case ResetUserPassword(org, user, next) => ResetPassword(t, org, user, next)
    case Block(org, user) => Deactivate(t, org, user, BlockedUser)
    case UnblockUser(org, user) => Unblock(t, org, user)
    case Archive(org, user) => Deactivate(t, org, user, ArchivedUser)
    case UserAdded(password) => Outcome(t.(users := t.users + [User(ActiveUser, 0, None, password, false)]), Done)
    case MembershipSet(row, m) =>
      if row < |t.memberships| && t.memberships[row].user == m.user then
        Outcome(t.(memberships := t.memberships[row := m]), Done)
      else if row == |t.memberships| && m.user < |t.users| then
        Outcome(t.(memberships := t.memberships + [m]), Done)
      else Outcome(t, Done)
    case TotpSet(user, enabled) =>
      if user < |t.users| then Outcome(t.(users := t.users[user := t.users[user].(totpEnabled := enabled)]), Done)
      else Outcome(t, Done)
  }

  function Step(t: Tables, s: Settings, c: Command): Tables {
    Execute(t, s, c).tables
  }

  /** Histories grow at the end. */
  function Run(s: Settings, cs: seq<Command>): Tables {
    if cs == [] then EMPTY else Step(Run(s, cs[..|cs| - 1]), s, cs[|cs| - 1])
  }

  // -------------------------------------------------------------- sessions

  /** A session keeps its owner and family, a closed one stays closed, and only a refresh renews a hash. */
  predicate SessionStep(c: Command, x: Session, x': Session) {
    && x'.user == x.user && x'.membership == x.membership && x'.family == x.family
    && (!x.status.ActiveSession? ==> !x'.status.ActiveSession?)
    && (x'.hash == x.hash || (c.RefreshToken? && x.hash == Digest(c.presented) && x'.hash == Digest(c.next)))
  }

  predicate SessionsStep(c: Command, before: seq<Session>, after: seq<Session>) {
    |before| <= |after| && forall i :: 0 <= i < |before| ==> SessionStep(c, before[i], after[i])
  }

  lemma RefreshOnSessions(t: Tables, s: Settings, c: Command)
    requires c.RefreshToken?
    ensures SessionsStep(c, t.sessions, Step(t, s, c).sessions) && |Step(t, s, c).sessions| == |t.sessions|
  {
  }

  lemma LoginOnSessions(t: Tables, s: Settings, c: Command)
    requires c.LogIn?
    ensures var after := Step(t, s, c).sessions;
      after == t.sessions || (|after| == |t.sessions| + 1 && t.sessions <= after && after[|t.sessions|].hash == Digest(c.request.token))
  {
  }

  lemma StepOnSessions(t: Tables, s: Settings, c: Command)
    ensures SessionsStep(c, t.sessions, Step(t, s, c).sessions)
    ensures |Step(t, s, c).sessions| > |t.sessions| ==>
      (&& c.LogIn? && |Step(t, s, c).sessions| == |t.sessions| + 1
       && Step(t, s, c).sessions[|t.sessions|].hash == Digest(c.request.token))
  {
    if c.RefreshToken? {
      RefreshOnSessions(t, s, c);
    } else if c.LogIn? {
      LoginOnSessions(t, s, c);
    }
  }

  lemma RunAppend(s: Settings, cs: seq<Command>, c: Command)
    ensures Run(s, cs + [c]) == Step(Run(s, cs), s, c)
  {
    assert (cs + [c])[..|cs|] == cs;
  }

  lemma RunExtended(s: Settings, cs: seq<Command>, more: seq<Command>)
    requires more != []
    ensures cs + more == (cs + more[..|more| - 1]) + [more[|more| - 1]]
    ensures Run(s, cs + more) == Step(Run(s, cs + more[..|more| - 1]), s, more[|more| - 1])
  {
    assert cs + more == (cs + more[..|more| - 1]) + [more[|more| - 1]];
    RunAppend(s, cs + more[..|more| - 1], more[|more| - 1]);
  }

  lemma ClosedAfterStep(t: Tables, s: Settings, c: Command, i: nat)
    requires i < |t.sessions| && !t.sessions[i].status.ActiveSession?
    ensures i < |Step(t, s, c).sessions| && !Step(t, s, c).sessions[i].status.ActiveSession?
  {
    StepOnSessions(t, s, c);
    assert SessionStep(c, t.sessions[i], Step(t, s, c).sessions[i]);
  }

  /** A session that has stopped being active is never active again. */
  lemma {:induction false} ClosedSessionStaysClosed(s: Settings, cs: seq<Command>, more: seq<Command>, i: nat)
    requires i < |Run(s, cs).sessions| && !Run(s, cs).sessions[i].status.ActiveSession?
    ensures i < |Run(s, cs + more).sessions| && !Run(s, cs + more).sessions[i].status.ActiveSession?
    decreases more
  {
    if more == [] {
      assert cs + more == cs;
    } else {
      var rest, c := more[..|more| - 1], more[|more| - 1];
      ClosedSessionStaysClosed(s, cs, rest, i);
      RunExtended(s, cs, more);
      ClosedAfterStep(Run(s, cs + rest), s, c, i);
    }
  }

  // ---------------------------------------------------------------- tokens

  /** The token a command would hand out. */
  function Minted(c: Command): Option<nat> {
    match c
    case LogIn(r) => Some(r.token)
    case RefreshToken(_, next, _, _) => Some(next)
    case _ => None
  }

  /** randomBytes: no token is drawn twice. */
  predicate FreshTokens(cs: seq<Command>) {
    forall i, j :: 0 <= i < j < |cs| && Minted(cs[i]).Some? ==> Minted(cs[i]) != Minted(cs[j])
  }

  predicate MintedIn(cs: seq<Command>, token: nat) {
    exists i :: 0 <= i < |cs| && Minted(cs[i]) == Some(token)
  }

  lemma MintedGrows(cs: seq<Command>, c: Command, token: nat)
    requires MintedIn(cs, token) || Minted(c) == Some(token)
    ensures MintedIn(cs + [c], token)
  {
    if MintedIn(cs, token) {
      var i :| 0 <= i < |cs| && Minted(cs[i]) == Some(token);
      assert Minted((cs + [c])[i]) == Some(token);
    } else {
      assert (cs + [c])[|cs|] == c;
    }
  }

  /** Every stored hash is of a token handed out in the run, no two sessions share one, and families are singletons. */
  ghost predicate HashesOk(sessions: seq<Session>, cs: seq<Command>) {
    && (forall i :: 0 <= i < |sessions| ==> MintedIn(cs, sessions[i].hash.token) && sessions[i].family == i)
    && (forall i, j :: 0 <= i < j < |sessions| ==> sessions[i].hash != sessions[j].hash)
  }

  lemma NotMintedBefore(cs: seq<Command>, c: Command, token: nat)
    requires FreshTokens(cs + [c]) && Minted(c) == Some(token)
    ensures !MintedIn(cs, token)
  {
    forall i | 0 <= i < |cs| ensures Minted(cs[i]) != Some(token) {
      assert (cs + [c])[i] == cs[i] && (cs + [c])[|cs|] == c;
    }
  }

  lemma StepKeepsHashes(t: Tables, s: Settings, cs: seq<Command>, c: Command)
    requires HashesOk(t.sessions, cs) && FreshTokens(cs + [c])
    ensures HashesOk(Step(t, s, c).sessions, cs + [c])
  {
    var after := Step(t, s, c).sessions;
    StepOnSessions(t, s, c);
    if Minted(c).Some? {
      NotMintedBefore(cs, c, Minted(c).value);
    }
    forall i | 0 <= i < |after| ensures MintedIn(cs + [c], after[i].hash.token) && after[i].family == i {
      MintedGrows(cs, c, after[i].hash.token);
    }
    forall i, j | 0 <= i < j < |after| ensures after[i].hash != after[j].hash {
      assert i < |t.sessions| && SessionStep(c, t.sessions[i], after[i]);
      assert j < |t.sessions| ==> SessionStep(c, t.sessions[j], after[j]);
    }
  }

  lemma {:induction false} RunKeepsHashes(s: Settings, cs: seq<Command>)
    requires FreshTokens(cs)
    ensures HashesOk(Run(s, cs).sessions, cs)
  {
    if cs != [] {
      var earlier, c := cs[..|cs| - 1], cs[|cs| - 1];
      assert earlier + [c] == cs;
      RunKeepsHashes(s, earlier);
      StepKeepsHashes(Run(s, earlier), s, earlier, c);
    }
  }

  /** A token that was handed out once and is no session's current hash stays that way. */
  lemma {:induction false} SpentTokenStaysSpent(s: Settings, cs: seq<Command>, more: seq<Command>, token: nat)
    requires FreshTokens(cs + more) && MintedIn(cs, token)
    requires forall i :: 0 <= i < |Run(s, cs).sessions| ==> Run(s, cs).sessions[i].hash != Digest(token)
    ensures forall i :: 0 <= i < |Run(s, cs + more).sessions| ==> Run(s, cs + more).sessions[i].hash != Digest(token)
    decreases more
  {
    if more == [] {
      assert cs + more == cs;
    } else {
      var rest, c := more[..|more| - 1], more[|more| - 1];
      RunExtended(s, cs, more);
      assert (cs + more)[..|cs + rest|] == cs + rest;
      PrefixIsFresh(cs + more, |cs + rest|);
      SpentTokenStaysSpent(s, cs, rest, token);
      StepOnSessions(Run(s, cs + rest), s, c);
      var i :| 0 <= i < |cs| && Minted(cs[i]) == Some(token);
      assert (cs + more)[i] == cs[i] && (cs + more)[|cs + rest|] == c;
      assert Minted(c) != Some(token);
    }
  }

  predicate Accepted(t: Tables, s: Settings, c: Command, token: nat) {
    c.RefreshToken? && c.presented == token && Execute(t, s, c).answer.Refreshed?
  }

  lemma AcceptedTokenIsSpent(s: Settings, cs: seq<Command>, c: Command, token: nat)
    requires FreshTokens(cs + [c]) && Accepted(Run(s, cs), s, c, token)
    ensures MintedIn(cs, token)
    ensures forall i :: 0 <= i < |Run(s, cs + [c]).sessions| ==> Run(s, cs + [c]).sessions[i].hash != Digest(token)
  {
    var t := Run(s, cs);
    assert cs == (cs + [c])[..|cs|];
    assert FreshTokens(cs);
    RunKeepsHashes(s, cs);
    RunAppend(s, cs, c);
    NotMintedBefore(cs, c, c.next);
  }

  /**
   Over a whole run no refresh token is accepted twice, whichever session it belonged to and whatever ran in
   between, provided tokens are never drawn twice.
   */
  lemma TokenWorksOnce(s: Settings, cs: seq<Command>, c: Command, between: seq<Command>, d: Command, token: nat)
    requires FreshTokens(cs + [c] + between + [d])
    requires Accepted(Run(s, cs), s, c, token)
    ensures !Accepted(Run(s, cs + [c] + between), s, d, token)
  {
    var all, upTo := cs + [c] + between + [d], cs + [c] + between;
    assert all[..|upTo|] == upTo && all[..|cs| + 1] == cs + [c];
    PrefixIsFresh(all, |upTo|);
    PrefixIsFresh(all, |cs| + 1);
    AcceptedTokenIsSpent(s, cs, c, token);
    MintedGrows(cs, c, token);
    SpentTokenStaysSpent(s, cs + [c], between, token);
  }

  lemma PrefixIsFresh(cs: seq<Command>, n: nat)
    requires n <= |cs| && FreshTokens(cs)
    ensures FreshTokens(cs[..n])
  {
  }

  /** The session a token belongs to: the newest one with its hash. */
  predicate Presents(t: Tables, token: nat, i: nat) {
    && i < |t.sessions| && t.sessions[i].hash == Digest(token)
    && forall j :: i < j < |t.sessions| ==> t.sessions[j].hash != Digest(token)
  }

  lemma PresentedIsFound(t: Tables, token: nat, i: nat)
    ensures Presents(t, token, i) <==> FindByRefreshHash(t, Digest(token)) == Some(i)
  {
    var rows := Matching(t.sessions, WithHash(Digest(token)));
    if rows != [] {
      var last := rows[|rows| - 1];
      assert last in rows;
      forall j | last < j < |t.sessions| ensures t.sessions[j].hash != Digest(token) {
        assert WithHash(Digest(token))(t.sessions[j]) ==> j in rows;
      }
    }
  }

  /** The session can be renewed: it is open and not overdue, and its user and membership may still log in. */
  predicate Renewable(t: Tables, x: Session, now: int) {
    && x.status == ActiveSession && now < x.expiresAt
    && x.membership < |t.memberships| && t.memberships[x.membership].user < |t.users|
    && t.memberships[x.membership].status == ActiveMembership
    && t.users[t.memberships[x.membership].user].status == ActiveUser
    && match t.users[t.memberships[x.membership].user].lockedUntil
       case None => true
       case Some(until) => until <= now
  }

  /** When a refresh succeeds, exactly. */
  lemma RefreshSucceedsIff(t: Tables, s: Settings, presented: nat, next: nat, allowed: bool, now: int)
    ensures Refresh(t, s, presented, next, allowed, now).answer.Refreshed?
      <==> allowed && exists i: nat :: Presents(t, presented, i) && Renewable(t, t.sessions[i], now)
  {
    var found := FindByRefreshHash(t, Digest(presented));
    if found.Some? {
      PresentedIsFound(t, presented, found.value);
    }
    forall i: nat | Presents(t, presented, i) ensures found == Some(i) {
      PresentedIsFound(t, presented, i);
    }
  }

  // ------------------------------------------------------------- token reuse

  /**
   The session notes promise that presenting a rotated token revokes its whole family. It does not: a rotated
   token matches no session at all, and a revoked session is its family's only member, so in a reachable
   state a refused refresh changes no other session.
   */
  lemma RefusedRefreshSparesOthers(s: Settings, cs: seq<Command>, c: Command, i: nat)
    requires FreshTokens(cs) && c.RefreshToken? && !Execute(Run(s, cs), s, c).answer.Refreshed?
    requires i < |Run(s, cs).sessions| && Run(s, cs).sessions[i].hash != Digest(c.presented)
    ensures var t' := Step(Run(s, cs), s, c); i < |t'.sessions| && t'.sessions[i] == Run(s, cs).sessions[i]
  {
    RunKeepsHashes(s, cs);
    RefusedRefresh(Run(s, cs), s, cs, c, i);
  }

  lemma RefusedRefresh(t: Tables, s: Settings, cs: seq<Command>, c: Command, i: nat)
    requires HashesOk(t.sessions, cs) && c.RefreshToken? && !Execute(t, s, c).answer.Refreshed?
    requires i < |t.sessions| && t.sessions[i].hash != Digest(c.presented)
    ensures i < |Step(t, s, c).sessions| && Step(t, s, c).sessions[i] == t.sessions[i]
  {
  }

  /** Presenting a rotated token again leaves the session it once opened just as active. */
  lemma RotatedTokenRevokesNothing(s: Settings, cs: seq<Command>, c: Command, between: seq<Command>, d: Command, token: nat)
    requires FreshTokens(cs + [c] + between + [d])
    requires Accepted(Run(s, cs), s, c, token) && d.RefreshToken? && d.presented == token
    ensures Step(Run(s, cs + [c] + between), s, d) == Run(s, cs + [c] + between)
  {
    var all, upTo := cs + [c] + between + [d], cs + [c] + between;
    assert all[..|upTo|] == upTo && all[..|cs| + 1] == cs + [c];
    PrefixIsFresh(all, |upTo|);
    PrefixIsFresh(all, |cs| + 1);
    AcceptedTokenIsSpent(s, cs, c, token);
    MintedGrows(cs, c, token);
    SpentTokenStaysSpent(s, cs + [c], between, token);
  }

  function OneSession(s: Settings, token: nat, now: int): Tables {
    Tables([User(ActiveUser, 0, None, "password-1", false)], [Membership(0, 1, ActiveMembership)],
           [Session(0, 0, 0, Digest(token), ActiveSession, now + s.refreshTtlMs, now)])
  }

  const SETTING_UP := [UserAdded("password-1"), MembershipSet(0, Membership(0, 1, ActiveMembership))]
  const LOGGING_IN := LogIn(LoginRequest(0, None, "password-1", None, true, 1, 0))
  const REFRESHING := RefreshToken(1, 2, true, 0)
  const REPLAYING := RefreshToken(1, 3, true, 0)

  lemma AfterSettingUp(s: Settings)
    ensures Run(s, SETTING_UP) == OneSession(s, 0, 0).(sessions := [])
  {
    assert SETTING_UP[..1] == [UserAdded("password-1")] && SETTING_UP[..1][..0] == [];
    assert Run(s, SETTING_UP[..1]) == Tables([User(ActiveUser, 0, None, "password-1", false)], [], []);
  }

  lemma AfterLoggingIn(s: Settings)
    ensures Run(s, SETTING_UP + [LOGGING_IN]) == OneSession(s, 1, 0)
  {
    AfterSettingUp(s);
    RunAppend(s, SETTING_UP, LOGGING_IN);
    hide Run;
    var t := OneSession(s, 0, 0).(sessions := []);
    assert t.memberships[..0] == [];
    assert Matching(t.memberships, ActiveOf(0)) == [0];
  }

  /** A user logs in, refreshes, and presents the first token again: it is refused, and the session stays active. */
  lemma ReplayedTokenSparesTheSession(s: Settings)
    requires s.refreshTtlMs > 0
    ensures var cs := SETTING_UP + [LOGGING_IN] + [REFRESHING];
      && Run(s, cs).sessions == [Session(0, 0, 0, Digest(2), ActiveSession, s.refreshTtlMs, 0)]
      && Execute(Run(s, cs), s, REPLAYING) == Outcome(Run(s, cs), Refused(InvalidRefresh))
  {
    AfterLoggingIn(s);
    RunAppend(s, SETTING_UP + [LOGGING_IN], REFRESHING);
    var t := OneSession(s, 1, 0);
    assert t.sessions[..0] == [];
    assert Matching(t.sessions, WithHash(Digest(1))) == [0];
    var t' := OneSession(s, 2, 0);
    assert Refresh(t, s, 1, 2, true, 0).tables == t';
    assert FindByRefreshHash(t', Digest(1)).None?;
  }

  // ------------------------------------------------- users and their sessions

  /** An inactive user has no active session, and a session belongs to its membership's user. */
  predicate UsersOk(t: Tables) {
    && (forall i :: 0 <= i < |t.sessions| ==>
          var x := t.sessions[i];
          && x.user < |t.users| && x.membership < |t.memberships| && t.memberships[x.membership].user == x.user
          && (x.status.ActiveSession? ==> t.users[x.user].status.ActiveUser?))
    && (forall m :: 0 <= m < |t.memberships| ==> t.memberships[m].user < |t.users|)
  }

  lemma LoginKeepsUsers(t: Tables, s: Settings, c: Command)
    requires UsersOk(t) && c.LogIn?
    ensures UsersOk(Step(t, s, c))
  {
  }

  lemma SessionCommandsKeepUsers(t: Tables, s: Settings, c: Command)
    requires UsersOk(t) && (c.RefreshToken? || c.LogOut? || c.LogOutAll? || c.RevokeSession?)
    ensures UsersOk(Step(t, s, c))
  {
  }

  lemma StatusCommandsKeepUsers(t: Tables, s: Settings, c: Command)
    requires UsersOk(t) && (c.Block? || c.UnblockUser? || c.Archive?)
    ensures UsersOk(Step(t, s, c))
  {
  }

  lemma OtherCommandsKeepUsers(t: Tables, s: Settings, c: Command)
    requires UsersOk(t)
    requires c.ChangeOwnPassword? || c.ResetUserPassword? || c.UserAdded? || c.MembershipSet? || c.TotpSet?
    ensures UsersOk(Step(t, s, c))
  {
  }

  lemma StepKeepsUsers(t: Tables, s: Settings, c: Command)
    requires UsersOk(t)
    ensures UsersOk(Step(t, s, c))
  {
    if c.LogIn? {
      LoginKeepsUsers(t, s, c);
    } else if c.RefreshToken? || c.LogOut? || c.LogOutAll? || c.RevokeSession? {
      SessionCommandsKeepUsers(t, s, c);
    } else if c.Block? || c.UnblockUser? || c.Archive? {
      StatusCommandsKeepUsers(t, s, c);
    } else {
      OtherCommandsKeepUsers(t, s, c);
    }
  }

  lemma {:induction false} RunKeepsUsers(s: Settings, cs: seq<Command>)
    ensures UsersOk(Run(s, cs))
  {
    if cs != [] {
      RunKeepsUsers(s, cs[..|cs| - 1]);
      StepKeepsUsers(Run(s, cs[..|cs| - 1]), s, cs[|cs| - 1]);
    }
  }

  /** A blocked or archived user has no active session, in every reachable state. */
  lemma InactiveUserHasNoSession(s: Settings, cs: seq<Command>, i: nat)
    requires i < |Run(s, cs).sessions|
    ensures var t := Run(s, cs);
      && t.sessions[i].user < |t.users|
      && (!t.users[t.sessions[i].user].status.ActiveUser? ==> !t.sessions[i].status.ActiveSession?)
  {
    RunKeepsUsers(s, cs);
  }

  /** A new password, set by its owner or by a manager, ends every session but the one it was changed from. */
  lemma NewPasswordEndsOtherSessions(t: Tables, s: Settings, c: Command, i: nat)
    requires i < |t.sessions| && Execute(t, s, c).answer.Done?
    requires (c.ChangeOwnPassword? && i != c.session && t.sessions[i].user == c.user)
          || (c.ResetUserPassword? && t.sessions[i].user == c.user)
    ensures !Step(t, s, c).sessions[i].status.ActiveSession?
    ensures Step(t, s, c).users[c.user].password == c.newPassword && StrongPassword(c.newPassword)
  {
  }
}
