/** The failure counter and the lock against the history of login attempts. */
module AuthLockout {
  import opened Wrappers
  import opened Sequences
  import opened AuthTables
  import opened AuthRuns

  /** A failed login that counts: a wrong password or code, an account that may not log in, no membership. */
  predicate CountedFailure(t: Tables, s: Settings, c: Command, user: nat) {
    && c.LogIn? && c.request.user == user && user < |t.users|
    && (Execute(t, s, c).answer == Refused(AuthFailure) || Execute(t, s, c).answer == Refused(TotpInvalid))
  }

  predicate LoggedIn(t: Tables, s: Settings, c: Command, user: nat) {
    c.LogIn? && c.request.user == user && Execute(t, s, c).answer.Authenticated?
  }

  /** The times of a user's counted failures since the last login that went through, from the history alone. */
  function FailuresSinceLogin(s: Settings, cs: seq<Command>, user: nat): seq<int> {
    if cs == [] then []
    else NextFailures(Run(s, cs[..|cs| - 1]), s, cs[|cs| - 1], user, FailuresSinceLogin(s, cs[..|cs| - 1], user))
  }

  function NextFailures(t: Tables, s: Settings, c: Command, user: nat, earlier: seq<int>): seq<int> {
    if LoggedIn(t, s, c, user) then []
    else if CountedFailure(t, s, c, user) then earlier + [c.request.now]
    else earlier
  }

  /** What the stored counter and lock say of a list of failures. */
  predicate Tells(u: User, failures: seq<int>, s: Settings) {
    && u.failedLoginAttempts == |failures|
    && u.lockedUntil == if failures == [] || |failures| < s.maxAttempts then None
                        else Some(failures[|failures| - 1] + s.lockoutMs)
  }

  lemma LoginTells(t: Tables, s: Settings, c: Command, user: nat, failures: seq<int>)
    requires s.maxAttempts >= 1 && c.LogIn? && user < |t.users| && Tells(t.users[user], failures, s)
    ensures user < |Step(t, s, c).users|
    ensures Tells(Step(t, s, c).users[user], NextFailures(t, s, c, user, failures), s)
  {
  }

  lemma OthersLeaveCounter(t: Tables, s: Settings, c: Command, user: nat, failures: seq<int>)
    requires !c.LogIn? && user < |t.users| && Tells(t.users[user], failures, s)
    ensures user < |Step(t, s, c).users|
    ensures Tells(Step(t, s, c).users[user], NextFailures(t, s, c, user, failures), s)
  {
  }

  lemma NewUserHasNoFailures(t: Tables, s: Settings, c: Command, user: nat)
    requires |t.users| <= user < |Step(t, s, c).users|
    ensures Tells(Step(t, s, c).users[user], NextFailures(t, s, c, user, []), s)
  {
  }

  lemma {:induction false} UnknownUserHasNoHistory(s: Settings, cs: seq<Command>, user: nat)
    requires user >= |Run(s, cs).users|
    ensures FailuresSinceLogin(s, cs, user) == []
  {
    if cs != [] {
      var t, c := Run(s, cs[..|cs| - 1]), cs[|cs| - 1];
      UsersGrow(t, s, c);
      UnknownUserHasNoHistory(s, cs[..|cs| - 1], user);
      NoHistoryForUnknown(t, s, c, user);
    }
  }

  lemma UsersGrow(t: Tables, s: Settings, c: Command)
    ensures |t.users| <= |Step(t, s, c).users|
  {
  }

  lemma NoHistoryForUnknown(t: Tables, s: Settings, c: Command, user: nat)
    requires user >= |t.users|
    ensures !CountedFailure(t, s, c, user) && !LoggedIn(t, s, c, user)
  {
  }

  lemma StepTells(t: Tables, s: Settings, c: Command, user: nat, failures: seq<int>)
    requires s.maxAttempts >= 1 && user < |Step(t, s, c).users|
    requires if user < |t.users| then Tells(t.users[user], failures, s) else failures == []
    ensures Tells(Step(t, s, c).users[user], NextFailures(t, s, c, user, failures), s)
  {
    if user >= |t.users| {
      NewUserHasNoFailures(t, s, c, user);
    } else if c.LogIn? {
      LoginTells(t, s, c, user, failures);
    } else {
      OthersLeaveCounter(t, s, c, user, failures);
    }
  }

  /**
   In every reachable state the stored counter is the number of counted failures since the user last logged
   in, and the lock is set exactly when that number has reached the maximum: to the last of them plus the
   lockout. Nothing else moves either: not unblocking, not a new password, not the passing of the lock.
   */
  lemma {:induction false} CounterIsTheHistory(s: Settings, cs: seq<Command>, user: nat)
    requires s.maxAttempts >= 1 && user < |Run(s, cs).users|
    ensures Tells(Run(s, cs).users[user], FailuresSinceLogin(s, cs, user), s)
  {
    var earlier := cs[..|cs| - 1];
    if user < |Run(s, earlier).users| {
      CounterIsTheHistory(s, earlier, user);
    } else {
      UnknownUserHasNoHistory(s, earlier, user);
    }
    StepTells(Run(s, earlier), s, cs[|cs| - 1], user, FailuresSinceLogin(s, earlier, user));
  }

  function OwnerOfToken(t: Tables, token: nat): Option<nat> {
    match FindByRefreshHash(t, Digest(token))
    case None => None
    case Some(i) => Some(t.sessions[i].user)
  }

  predicate LockedAt(u: User, now: int) {
    u.lockedUntil.Some? && now < u.lockedUntil.value
  }

  /** Even the right password counts against a locked user, and pushes the lock further out. */
  lemma LockedUserIsRefused(t: Tables, s: Settings, r: LoginRequest)
    requires r.user < |t.users| && LockedAt(t.users[r.user], r.now)
    ensures !Login(t, s, r).answer.Authenticated?
    ensures r.allowed ==>
      (&& Login(t, s, r).tables.users[r.user].failedLoginAttempts == t.users[r.user].failedLoginAttempts + 1
       && (t.users[r.user].failedLoginAttempts + 1 >= s.maxAttempts ==>
             Login(t, s, r).tables.users[r.user].lockedUntil == Some(r.now + s.lockoutMs)))
  {
  }

  lemma LockedUserCannotRefresh(t: Tables, s: Settings, c: Command, user: nat)
    requires UsersOk(t) && user < |t.users| && c.RefreshToken?
    requires OwnerOfToken(t, c.presented) == Some(user) && LockedAt(t.users[user], c.now)
    ensures !Execute(t, s, c).answer.Refreshed?
  {
    RefreshSucceedsIff(t, s, c.presented, c.next, c.allowed, c.now);
  }

  lemma HistoryLocks(s: Settings, cs: seq<Command>, user: nat, now: int)
    requires s.maxAttempts >= 1 && user < |Run(s, cs).users|
    requires var failures := FailuresSinceLogin(s, cs, user);
      |failures| >= s.maxAttempts && now < failures[|failures| - 1] + s.lockoutMs
    ensures LockedAt(Run(s, cs).users[user], now)
  {
    hide Run, FailuresSinceLogin;
    CounterIsTheHistory(s, cs, user);
  }

  /**
   When the last of at least maxAttempts counted failures is less than the lockout ago, no login and no
   refresh goes through for the user, whatever the password.
   */
  lemma NothingPassesTheLock(s: Settings, cs: seq<Command>, c: Command, user: nat, now: int)
    requires s.maxAttempts >= 1 && user < |Run(s, cs).users|
    requires var failures := FailuresSinceLogin(s, cs, user);
      |failures| >= s.maxAttempts && now < failures[|failures| - 1] + s.lockoutMs
    requires (c.LogIn? && c.request.user == user && c.request.now == now)
          || (c.RefreshToken? && c.now == now && OwnerOfToken(Run(s, cs), c.presented) == Some(user))
    ensures !Execute(Run(s, cs), s, c).answer.Authenticated? && !Execute(Run(s, cs), s, c).answer.Refreshed?
  {
    HistoryLocks(s, cs, user, now);
    if c.LogIn? {
      LockedUserIsRefused(Run(s, cs), s, c.request);
    } else {
      RunKeepsUsers(s, cs);
      LockedUserCannotRefresh(Run(s, cs), s, c, user);
    }
  }

  /** The membership a login opens: the one in the organization asked for, or the user's only active one. */
  predicate Opens(t: Tables, user: nat, org: Option<nat>, m: nat) {
    && m < |t.memberships| && t.memberships[m].user == user && t.memberships[m].status == ActiveMembership
    && match org
       case Some(o) => t.memberships[m].org == o
       case None => forall n :: 0 <= n < |t.memberships| && n != m && t.memberships[n].user == user ==>
                      t.memberships[n].status != ActiveMembership
  }

  lemma ChosenIsOpened(t: Tables, user: nat, org: Option<nat>)
    ensures var m := ChooseMembership(t, user, org);
      if m.Some? then Opens(t, user, org, m.value) else forall n: nat :: !Opens(t, user, org, n)
  {
    var rows := Matching(t.memberships, ActiveOf(user));
    if org.None? {
      forall n: nat | Opens(t, user, org, n) ensures rows == [n] {
        assert n in rows;
        forall a | 0 <= a < |rows| ensures rows[a] == n {
          assert rows[a] in rows && ActiveOf(user)(t.memberships[rows[a]]);
        }
        assert rows[0] == n == rows[|rows| - 1];
      }
      if |rows| == 1 {
        assert rows[0] in rows;
        assert forall n :: 0 <= n < |t.memberships| && ActiveOf(user)(t.memberships[n]) ==> n in rows;
      }
    } else {
      assert forall n :: 0 <= n < |t.memberships| ==>
        (ActiveIn(user, org.value)(t.memberships[n]) <==> Opens(t, user, org, n));
    }
  }

  /**
   When a login goes through, exactly: the lock must have run out, whether or not the counter has; and there is
   an active membership in the organization asked for, or exactly one when none is.
   */
  lemma LoginSucceedsIff(t: Tables, s: Settings, r: LoginRequest)
    ensures Login(t, s, r).answer.Authenticated?
      <==> && r.allowed && r.user < |t.users| && r.password == t.users[r.user].password
           && t.users[r.user].status.ActiveUser? && !LockedAt(t.users[r.user], r.now)
           && (exists m: nat :: Opens(t, r.user, r.org, m))
           && (t.users[r.user].totpEnabled ==> r.totpCode == Some(true))
  {
    var m := ChooseMembership(t, r.user, r.org);
    ChosenIsOpened(t, r.user, r.org);
    if m.Some? {
      assert m.value in Matching(t.memberships, ActiveOf(r.user));
    }
  }
}
