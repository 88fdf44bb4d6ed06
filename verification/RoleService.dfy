/** The user-management commands as they run: row by row, and rolled back on a failure. */
module RoleService {
  import opened Wrappers
  import opened RoleTables

  /** A transaction ended with its new tables, or with its error and no trace. */
  ghost predicate Committed(error: Option<Error>, before: Tables, now: Tables, spec: Result<Tables, Error>) {
    match spec
    case Ok(t) => error.None? && now == t
    case Rejected(e) => error == Some(e) && now == before
  }

  class IdentityDatabase {
    var orgs: set<nat>
    var stores: map<nat, nat>
    var users: map<string, UserStatus>
    var memberships: map<Member, Membership>
    var roleRows: set<RoleRow>
    var storeRows: set<StoreRow>
    var sessionMembers: set<Member>

    function Db(): Tables
      reads this
    {
      Tables(orgs, stores, users, memberships, roleRows, storeRows, sessionMembers)
    }

    constructor (t: Tables)
      ensures Db() == t
    {
      orgs, stores, users, memberships := t.orgs, t.stores, t.users, t.memberships;
      roleRows, storeRows, sessionMembers := t.roleRows, t.storeRows, t.sessionMembers;
    }

    /** Deletes the member's role rows and creates the new ones, one by one. */
    method ReplaceMembershipRoles(m: Member, codes: seq<string>) returns (error: Option<Error>)
      modifies this`roleRows
      ensures var rows := InsertRoles(RoleRowsWithout(old(roleRows), m), m, codes);
        if rows.Ok? then error.None? && roleRows == rows.value else error == Some(rows.error)
    {
      roleRows := set r | r in roleRows && r.member != m;
      ghost var start := roleRows;
      var i := 0;
      while i < |codes|
        invariant i <= |codes|
        invariant InsertRoles(start, m, codes) == InsertRoles(roleRows, m, codes[i..])
      {
        assert codes[i..][1..] == codes[i + 1..];
        if RoleRow(m, codes[i]) in roleRows {
          return Some(ConstraintViolation);
        }
        roleRows := roleRows + {RoleRow(m, codes[i])};
        i := i + 1;
      }
      error := None;
    }

    method AssignRoles(m: Member, codes: seq<string>) returns (error: Option<Error>)
      modifies this
      ensures Committed(error, old(Db()), Db(), RoleTables.AssignRoles(old(Db()), m, codes))
    {
      if m !in memberships {
        return Some(UserNotFound);
      }
      var mode := memberships[m].mode;
      if !FloristBindingOk(FLORIST in codes, mode, mode.SelectedStores? && StoresOf(Db(), m) != {}) {
        return Some(FloristRequiresStore);
      }
      var removingDirector := DIRECTOR in RolesOf(Db(), m) && DIRECTOR !in codes;
      if removingDirector && CountActiveDirectors(Db(), m.org) <= 1 {
        return Some(LastDirector);
      }
      for i := 0 to |codes|
        invariant forall x :: 0 <= x < i ==> codes[x] in SYSTEM_ROLES
      {
        if codes[i] !in SYSTEM_ROLES {
          return Some(InvalidRole);
        }
      }
      var snapshot := roleRows;
      error := ReplaceMembershipRoles(m, codes);
      if error.Some? {
        roleRows := snapshot;
      }
    }

    /** Rewrites the access mode, deletes the member's store rows and creates the chosen ones. */
    method ReplaceStoreAccess(m: Member, mode: StoreAccessMode, storeIds: seq<nat>) returns (error: Option<Error>)
      requires m in memberships
      modifies this`memberships, this`storeRows
      ensures var rows := InsertStores(StoreRowsWithout(old(storeRows), m), m, if mode.SelectedStores? then storeIds else []);
        if rows.Ok? then error.None? && storeRows == rows.value && memberships == old(memberships)[m := old(memberships)[m].(mode := mode)]
        else error == Some(rows.error)
    {
      memberships := memberships[m := memberships[m].(mode := mode)];
      storeRows := set r | r in storeRows && r.member != m;
      ghost var start := storeRows;
      if mode.SelectedStores? {
        var i := 0;
        while i < |storeIds|
          invariant i <= |storeIds| && memberships == old(memberships)[m := old(memberships)[m].(mode := mode)]
          invariant InsertStores(start, m, storeIds) == InsertStores(storeRows, m, storeIds[i..])
        {
          assert storeIds[i..][1..] == storeIds[i + 1..];
          if StoreRow(m, storeIds[i]) in storeRows {
            return Some(ConstraintViolation);
          }
          storeRows := storeRows + {StoreRow(m, storeIds[i])};
          i := i + 1;
        }
      }
      error := None;
    }

    method SetStoreAccess(m: Member, mode: StoreAccessMode, storeIds: seq<nat>) returns (error: Option<Error>)
      modifies this
      ensures Committed(error, old(Db()), Db(), RoleTables.SetStoreAccess(old(Db()), m, mode, storeIds))
    {
      if m !in memberships {
        return Some(UserNotFound);
      }
      for i := 0 to |storeIds|
        invariant forall x :: 0 <= x < i ==> storeIds[x] in stores && stores[storeIds[x]] == m.org
      {
        if storeIds[i] !in stores || stores[storeIds[i]] != m.org {
          return Some(InvalidStore);
        }
      }
      if !FloristBindingOk(FLORIST in RolesOf(Db(), m), mode, mode.SelectedStores? && storeIds != []) {
        return Some(FloristRequiresStore);
      }
      var oldMemberships, oldRows := memberships, storeRows;
      error := ReplaceStoreAccess(m, mode, storeIds);
      if error.Some? {
        memberships, storeRows := oldMemberships, oldRows;
      }
    }

    method CreateUser(m: Member) returns (error: Option<Error>)
      modifies this
      ensures Committed(error, old(Db()), Db(), RoleTables.CreateUser(old(Db()), m))
    {
      if m.login in users {
        return Some(UserExists);
      }
      if m.org !in orgs || m in memberships {
        return Some(ConstraintViolation);
      }
      users := users[m.login := ActiveUser];
      memberships := memberships[m := Membership(ActiveMembership, AllStores)];
      error := None;
    }

    method CreateDirector(m: Member, attachExistingUser: bool) returns (error: Option<Error>)
      modifies this
      ensures Committed(error, old(Db()), Db(), RoleTables.CreateDirector(old(Db()), m, attachExistingUser))
    {
      if m.org !in orgs {
        return Some(OrganizationNotFound);
      }
      if m.login in users {
        if !attachExistingUser {
          return Some(UserExists);
        }
      } else {
        users := users[m.login := ActiveUser];
      }
      if m !in memberships {
        memberships := memberships[m := Membership(ActiveMembership, AllStores)];
      }
      if DIRECTOR !in RolesOf(Db(), m) {
        roleRows := roleRows + {RoleRow(m, DIRECTOR)};
      }
      assert roleRows == old(roleRows) + {RoleRow(m, DIRECTOR)};
      error := None;
    }

    method SetUserStatus(m: Member, status: UserStatus) returns (error: Option<Error>)
      modifies this
      ensures Committed(error, old(Db()), Db(), RoleTables.SetUserStatus(old(Db()), m, status))
    {
      if m !in memberships {
        return Some(UserNotFound);
      }
      if m.login !in users {
        return Some(ConstraintViolation);
      }
      users := users[m.login := status];
      error := None;
    }

    /** The deletes in their order; a session row that refers to the membership stops the third. */
    method DeleteOrgUser(m: Member) returns (error: Option<Error>)
      modifies this
      ensures Committed(error, old(Db()), Db(), RoleTables.DeleteOrgUser(old(Db()), m))
    {
      if m !in memberships {
        return Some(UserNotFound);
      }
      if DIRECTOR in RolesOf(Db(), m) && CountActiveDirectors(Db(), m.org) <= 1 {
        return Some(EntityInUse);
      }
      var oldRoles, oldStores := roleRows, storeRows;
      roleRows := set r | r in roleRows && r.member != m;
      storeRows := set r | r in storeRows && r.member != m;
      if m in sessionMembers {
        roleRows, storeRows := oldRoles, oldStores;
        return Some(ConstraintViolation);
      }
      memberships := memberships - {m};
      if !exists x :: x in memberships && x.login == m.login {
        sessionMembers := set x | x in sessionMembers && x.login != m.login;
        users := users - {m.login};
      }
      error := None;
    }
  }
}
