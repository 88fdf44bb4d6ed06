/** When each user-management command goes through, what it leaves behind, and what a refusal tells. */
module RoleOutcomes {
  import opened Wrappers
  import opened RoleTables
  import opened RoleRuns

  predicate HasRole(t: Tables, m: Member, code: string) {
    RoleRow(m, code) in t.roleRows
  }

  /** At least two members of the organization are directors with an active membership. */
  ghost predicate TwoDirectors(t: Tables, org: nat) {
    exists a: Member, b: Member :: a != b && a.org == org && b.org == org && ActiveDirector(t, a) && ActiveDirector(t, b)
  }

  /** The count of director rows tells exactly that. */
  lemma TwoDirectorsIff(t: Tables, org: nat)
    ensures CountActiveDirectors(t, org) > 1 <==> TwoDirectors(t, org)
  {
    var rows := DirectorRows(t, org);
    if TwoDirectors(t, org) {
      var a: Member, b: Member :| a != b && a.org == org && b.org == org && ActiveDirector(t, a) && ActiveDirector(t, b);
      var two := {RoleRow(a, DIRECTOR), RoleRow(b, DIRECTOR)};
      assert two <= rows;
      SubsetIsNoLarger(two, rows);
    }
    if |rows| > 1 {
      var r :| r in rows;
      var b := AnotherDirector(t, r.member);
      assert r == RoleRow(r.member, DIRECTOR) && ActiveDirector(t, r.member);
      assert r.member != b && r.member.org == org && b.org == org;
    }
  }

  lemma SubsetIsNoLarger<T>(a: set<T>, b: set<T>)
    requires a <= b
    ensures |a| <= |b|
  {
    assert b == a + (b - a);
  }

  lemma RolesAreRows(t: Tables, m: Member, code: string)
    ensures code in RolesOf(t, m) <==> HasRole(t, m, code)
  {
  }

  // ------------------------------------------------------------------ roles

  /**
   Roles are given to a member when they are known and named once each, when a florist among them has a store
   already, and when a director who is to lose that role leaves another behind.
   */
  lemma AssignSucceedsIff(t: Tables, m: Member, codes: seq<string>)
    ensures AssignRoles(t, m, codes).Ok?
      <==> && m in t.memberships
           && ("FLORIST" in codes ==> t.memberships[m].mode == SelectedStores && HasStore(t, m))
           && (HasRole(t, m, "DIRECTOR") && "DIRECTOR" !in codes ==> TwoDirectors(t, m.org))
           && (forall code :: code in codes ==> code in {"DIRECTOR", "FLORIST", "COURIER", "DEVELOPER"})
           && NoRepeats(codes)
  {
    InsertRolesSucceedsIff(RoleRowsWithout(t.roleRows, m), m, codes);
    TwoDirectorsIff(t, m.org);
    StoresOfAreRows(t, m);
    RolesAreRows(t, m, DIRECTOR);
  }

  /** Only role rows are written, and only the member's. */
  lemma AssignmentWrites(t: Tables, m: Member, codes: seq<string>)
    requires AssignRoles(t, m, codes).Ok?
    ensures var t' := AssignRoles(t, m, codes).value;
      && t' == t.(roleRows := t'.roleRows)
      && forall r :: r in t'.roleRows <==> if r.member == m then r.code in codes else r in t.roleRows
  {
    InsertRolesResult(RoleRowsWithout(t.roleRows, m), m, codes);
  }

  lemma AssignRefusal(t: Tables, m: Member, codes: seq<string>)
    requires AssignRoles(t, m, codes).Rejected?
    ensures match AssignRoles(t, m, codes).error
            case UserNotFound => m !in t.memberships
            case FloristRequiresStore =>
              "FLORIST" in codes && m in t.memberships && (t.memberships[m].mode == AllStores || !HasStore(t, m))
            case LastDirector => HasRole(t, m, "DIRECTOR") && "DIRECTOR" !in codes && !TwoDirectors(t, m.org)
            case InvalidRole => exists code :: code in codes && code !in {"DIRECTOR", "FLORIST", "COURIER", "DEVELOPER"}
            case ConstraintViolation => !NoRepeats(codes)
            case _ => false
  {
    InsertRolesSucceedsIff(RoleRowsWithout(t.roleRows, m), m, codes);
    InsertRolesError(RoleRowsWithout(t.roleRows, m), m, codes);
    TwoDirectorsIff(t, m.org);
    StoresOfAreRows(t, m);
    RolesAreRows(t, m, DIRECTOR);
  }

  lemma {:induction false} InsertRolesError(rows: set<RoleRow>, m: Member, codes: seq<string>)
    ensures InsertRoles(rows, m, codes).Rejected? ==> InsertRoles(rows, m, codes).error == ConstraintViolation
    decreases codes
  {
    if codes != [] {
      InsertRolesError(rows + {RoleRow(m, codes[0])}, m, codes[1..]);
    }
  }

  // ----------------------------------------------------------- store access

  lemma {:induction false} InsertStoresSucceedsIff(rows: set<StoreRow>, m: Member, stores: seq<nat>)
    ensures InsertStores(rows, m, stores).Ok? <==> NoRepeats(stores) && forall s :: s in stores ==> StoreRow(m, s) !in rows
    ensures InsertStores(rows, m, stores).Rejected? ==> InsertStores(rows, m, stores).error == ConstraintViolation
    decreases stores
  {
    if stores != [] {
      InsertStoresSucceedsIff(rows + {StoreRow(m, stores[0])}, m, stores[1..]);
      assert stores == [stores[0]] + stores[1..];
      NoRepeatsFromHead(stores);
    }
  }

  /** Store access is set to stores of the organization, named once each, and leaves a florist with one. */
  lemma AccessSucceedsIff(t: Tables, m: Member, mode: StoreAccessMode, storeIds: seq<nat>)
    ensures SetStoreAccess(t, m, mode, storeIds).Ok?
      <==> && m in t.memberships
           && (forall s :: s in storeIds ==> s in t.stores && t.stores[s] == m.org)
           && (HasRole(t, m, "FLORIST") ==> mode == SelectedStores && storeIds != [])
           && (mode == SelectedStores ==> NoRepeats(storeIds))
  {
    InsertStoresSucceedsIff(StoreRowsWithout(t.storeRows, m), m, if mode.SelectedStores? then storeIds else []);
    RolesAreRows(t, m, FLORIST);
  }

  /** The member's mode is the one asked for, its stores are the chosen ones, or none with ALL_STORES. */
  lemma AccessWrites(t: Tables, m: Member, mode: StoreAccessMode, storeIds: seq<nat>)
    requires SetStoreAccess(t, m, mode, storeIds).Ok?
    ensures var t' := SetStoreAccess(t, m, mode, storeIds).value;
      && m in t.memberships
      && t' == t.(memberships := t.memberships[m := Membership(t.memberships[m].status, mode)], storeRows := t'.storeRows)
      && forall r :: r in t'.storeRows <==> if r.member == m then mode == SelectedStores && r.store in storeIds else r in t.storeRows
  {
    InsertStoresResult(StoreRowsWithout(t.storeRows, m), m, if mode.SelectedStores? then storeIds else []);
  }

  lemma AccessRefusal(t: Tables, m: Member, mode: StoreAccessMode, storeIds: seq<nat>)
    requires SetStoreAccess(t, m, mode, storeIds).Rejected?
    ensures match SetStoreAccess(t, m, mode, storeIds).error
            case UserNotFound => m !in t.memberships
            case InvalidStore => exists s :: s in storeIds && (s !in t.stores || t.stores[s] != m.org)
            case FloristRequiresStore => HasRole(t, m, "FLORIST") && (mode == AllStores || storeIds == [])
            case ConstraintViolation => mode == SelectedStores && !NoRepeats(storeIds)
            case _ => false
  {
    InsertStoresSucceedsIff(StoreRowsWithout(t.storeRows, m), m, if mode.SelectedStores? then storeIds else []);
    RolesAreRows(t, m, FLORIST);
  }

  // ------------------------------------------------------------------- users

  /** A user is created under a new login in an existing organization, active, with access to all stores and no role. */
  lemma CreateUserSucceedsIff(t: Tables, m: Member)
    requires Inv(t)
    ensures CreateUser(t, m)
      == if m.login in t.users then Rejected(UserExists)
         else if m.org !in t.orgs then Rejected(ConstraintViolation)
         else Ok(t.(users := t.users[m.login := ActiveUser],
                    memberships := t.memberships[m := Membership(ActiveMembership, AllStores)]))
    ensures CreateUser(t, m).Ok? ==> forall code :: !HasRole(CreateUser(t, m).value, m, code)
  {
  }

  /** A director is created, or attached when asked; what exists already of the user and the membership stays as it is. */
  lemma CreateDirectorSucceedsIff(t: Tables, m: Member, attachExistingUser: bool)
    ensures CreateDirector(t, m, attachExistingUser).Ok? <==> m.org in t.orgs && (m.login in t.users ==> attachExistingUser)
    ensures CreateDirector(t, m, attachExistingUser).Rejected? ==>
      CreateDirector(t, m, attachExistingUser).error == if m.org in t.orgs then UserExists else OrganizationNotFound
    ensures CreateDirector(t, m, attachExistingUser).Ok? ==>
      var t' := CreateDirector(t, m, attachExistingUser).value;
      && t' == t.(users := t'.users, memberships := t'.memberships, roleRows := t.roleRows + {RoleRow(m, "DIRECTOR")})
      && t'.users == (if m.login in t.users then t.users else t.users[m.login := ActiveUser])
      && t'.memberships == (if m in t.memberships then t.memberships
                            else t.memberships[m := Membership(ActiveMembership, AllStores)])
  {
  }

  /** The status is the user's, set through any of its memberships. */
  lemma SetStatusSucceedsIff(t: Tables, m: Member, status: UserStatus)
    requires Inv(t)
    ensures SetUserStatus(t, m, status)
      == if m in t.memberships then Ok(t.(users := t.users[m.login := status])) else Rejected(UserNotFound)
  {
  }

  /** A member can be deleted who is not the last director and has never opened a session. */
  lemma DeleteSucceedsIff(t: Tables, m: Member)
    ensures DeleteOrgUser(t, m).Ok?
      <==> m in t.memberships && (HasRole(t, m, "DIRECTOR") ==> TwoDirectors(t, m.org)) && m !in t.sessionMembers
    ensures DeleteOrgUser(t, m).Rejected? ==>
      match DeleteOrgUser(t, m).error
      case UserNotFound => m !in t.memberships
      case EntityInUse => HasRole(t, m, "DIRECTOR") && !TwoDirectors(t, m.org)
      case ConstraintViolation => m in t.sessionMembers
      case _ => false
  {
    TwoDirectorsIff(t, m.org);
    RolesAreRows(t, m, DIRECTOR);
  }

  /** The membership goes with its rows; the user goes, and the sessions, when it was the user's last. */
  lemma DeletionWrites(t: Tables, m: Member)
    requires DeleteOrgUser(t, m).Ok?
    ensures var t' := DeleteOrgUser(t, m).value;
      && t'.orgs == t.orgs && t'.stores == t.stores
      && (forall x :: x in t'.memberships <==> x in t.memberships && x != m)
      && (forall x :: x in t'.memberships ==> t'.memberships[x] == t.memberships[x])
      && (forall r :: r in t'.roleRows <==> r in t.roleRows && r.member != m)
      && (forall r :: r in t'.storeRows <==> r in t.storeRows && r.member != m)
      && (forall login :: login in t'.users <==>
            login in t.users && (login == m.login ==> exists x :: x in t.memberships && x != m && x.login == login))
      && (forall login :: login in t'.users ==> t'.users[login] == t.users[login])
      && (forall x :: x in t'.sessionMembers <==>
            x in t.sessionMembers && (x.login == m.login ==> exists y :: y in t.memberships && y != m && y.login == m.login))
  {
    var rest := t.memberships - {m};
    if exists x :: x in t.memberships && x != m && x.login == m.login {
      var x :| x in t.memberships && x != m && x.login == m.login;
      assert x in rest;
    } else {
      assert forall x :: x in rest ==> x in t.memberships && x != m;
    }
  }
}
