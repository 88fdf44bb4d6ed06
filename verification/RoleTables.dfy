/**
 Organizations, users, memberships with their role and store-access rows, and the commands over them.
 A user is named by its login and a membership by its organization and login: both are unique keys.
 */
module RoleTables {
  import opened Wrappers

  datatype UserStatus = ActiveUser | BlockedUser | ArchivedUser

  datatype Member = Member(org: nat, login: string)

  datatype MembershipStatus = ActiveMembership | SuspendedMembership | ArchivedMembership

  datatype StoreAccessMode = AllStores | SelectedStores

  datatype Membership = Membership(status: MembershipStatus, mode: StoreAccessMode)

  datatype RoleRow = RoleRow(member: Member, code: string)

  datatype StoreRow = StoreRow(member: Member, store: nat)

  /** sessionMembers are the memberships that some session row, closed or not, refers to. */
  datatype Tables = Tables(
    orgs: set<nat>, stores: map<nat, nat>, users: map<string, UserStatus>, memberships: map<Member, Membership>,
    roleRows: set<RoleRow>, storeRows: set<StoreRow>, sessionMembers: set<Member>)

  const EMPTY := Tables({}, map[], map[], map[], {}, {}, {})

  datatype Error =
    | OrganizationNotFound
    | UserExists
    | UserNotFound
    | FloristRequiresStore
    | LastDirector
    | InvalidRole
    | InvalidStore
    | EntityInUse
    | ConstraintViolation

  const DIRECTOR := "DIRECTOR"
  const FLORIST := "FLORIST"

  /** The roles ensureSystemRoles keeps in every organization; there are no others. */
  const SYSTEM_ROLES: set<string> := {DIRECTOR, FLORIST, "COURIER", "DEVELOPER"}

  // ------------------------------------------------------------------ queries

  function RolesOf(t: Tables, m: Member): set<string> {
    set r | r in t.roleRows && r.member == m :: r.code
  }

  function StoresOf(t: Tables, m: Member): set<nat> {
    set r | r in t.storeRows && r.member == m :: r.store
  }

  /** The rows countActiveDirectors counts: it looks at the membership, not at the user. */
  function DirectorRows(t: Tables, org: nat): set<RoleRow> {
    set r | r in t.roleRows && r.code == DIRECTOR && r.member.org == org
            && r.member in t.memberships && t.memberships[r.member].status.ActiveMembership?
  }

  function CountActiveDirectors(t: Tables, org: nat): nat {
    |DirectorRows(t, org)|
  }

  /** assertFloristStoreBinding */
  predicate FloristBindingOk(florist: bool, mode: StoreAccessMode, hasStore: bool) {
    florist ==> mode.SelectedStores? && hasStore
  }

  // ------------------------------------------------------------------- writes

  function InsertRoles(rows: set<RoleRow>, m: Member, codes: seq<string>): Result<set<RoleRow>, Error>
    decreases codes
  {
    if codes == [] then Ok(rows)
    else if RoleRow(m, codes[0]) in rows then Rejected(ConstraintViolation)
    else InsertRoles(rows + {RoleRow(m, codes[0])}, m, codes[1..])
  }

  function InsertStores(rows: set<StoreRow>, m: Member, stores: seq<nat>): Result<set<StoreRow>, Error>
    decreases stores
  {
    if stores == [] then Ok(rows)
    else if StoreRow(m, stores[0]) in rows then Rejected(ConstraintViolation)
    else InsertStores(rows + {StoreRow(m, stores[0])}, m, stores[1..])
  }

  function RoleRowsWithout(rows: set<RoleRow>, m: Member): set<RoleRow> {
    set r | r in rows && r.member != m
  }

  function StoreRowsWithout(rows: set<StoreRow>, m: Member): set<StoreRow> {
    set r | r in rows && r.member != m
  }

  // ----------------------------------------------------------------- commands

  function AssignRoles(t: Tables, m: Member, codes: seq<string>): Result<Tables, Error> {
    if m !in t.memberships then Rejected(UserNotFound)
    else
      var mode := t.memberships[m].mode;
      if !FloristBindingOk(FLORIST in codes, mode, mode.SelectedStores? && StoresOf(t, m) != {}) then Rejected(FloristRequiresStore)
      else if DIRECTOR in RolesOf(t, m) && DIRECTOR !in codes && CountActiveDirectors(t, m.org) <= 1 then Rejected(LastDirector)
      else if exists code :: code in codes && code !in SYSTEM_ROLES then Rejected(InvalidRole)
      else
        var rows :- InsertRoles(RoleRowsWithout(t.roleRows, m), m, codes);
        Ok(t.(roleRows := rows))
  }

  function SetStoreAccess(t: Tables, m: Member, mode: StoreAccessMode, storeIds: seq<nat>): Result<Tables, Error> {
    if m !in t.memberships then Rejected(UserNotFound)
    else if exists s :: s in storeIds && (s !in t.stores || t.stores[s] != m.org) then Rejected(InvalidStore)
    else if !FloristBindingOk(FLORIST in RolesOf(t, m), mode, mode.SelectedStores? && storeIds != []) then Rejected(FloristRequiresStore)
    else
      var rows :- InsertStores(StoreRowsWithout(t.storeRows, m), m, if mode.SelectedStores? then storeIds else []);
      Ok(t.(memberships := t.memberships[m := t.memberships[m].(mode := mode)], storeRows := rows))
  }

  function CreateUser(t: Tables, m: Member): Result<Tables, Error> {
    if m.login in t.users then Rejected(UserExists)
    else if m.org !in t.orgs || m in t.memberships then Rejected(ConstraintViolation)
    else Ok(t.(users := t.users[m.login := ActiveUser],
               memberships := t.memberships[m := Membership(ActiveMembership, AllStores)]))
  }

  function CreateDirector(t: Tables, m: Member, attachExistingUser: bool): Result<Tables, Error> {
    if m.org !in t.orgs then Rejected(OrganizationNotFound)
    else if m.login in t.users && !attachExistingUser then Rejected(UserExists)
    else
      var t1 := if m.login in t.users then t else t.(users := t.users[m.login := ActiveUser]);
      var t2 := if m in t1.memberships then t1
                else t1.(memberships := t1.memberships[m := Membership(ActiveMembership, AllStores)]);
      Ok(t2.(roleRows := t2.roleRows + {RoleRow(m, DIRECTOR)}))
  }

  function SetUserStatus(t: Tables, m: Member, status: UserStatus): Result<Tables, Error> {
    if m !in t.memberships then Rejected(UserNotFound)
    else if m.login !in t.users then Rejected(ConstraintViolation)
    else Ok(t.(users := t.users[m.login := status]))
  }

  /** The membership goes before the sessions do, so any session row that refers to it forbids the delete. */
  function DeleteOrgUser(t: Tables, m: Member): Result<Tables, Error> {
    if m !in t.memberships then Rejected(UserNotFound)
    else if DIRECTOR in RolesOf(t, m) && CountActiveDirectors(t, m.org) <= 1 then Rejected(EntityInUse)
    else if m in t.sessionMembers then Rejected(ConstraintViolation)
    else
      var t1 := t.(roleRows := RoleRowsWithout(t.roleRows, m), storeRows := StoreRowsWithout(t.storeRows, m),
                   memberships := t.memberships - {m});
      if exists x :: x in t1.memberships && x.login == m.login then Ok(t1)
      else Ok(t1.(users := t1.users - {m.login}, sessionMembers := set x | x in t1.sessionMembers && x.login != m.login))
  }
}
