/** Whole runs of the user-management commands: florists keep a store, organizations keep a director. */
module RoleRuns {
  import opened Wrappers
  import opened RoleTables

  /** The last three stand for other modules: an organization, a store or a session appears. */
  datatype Command =
    | Assign(m: Member, codes: seq<string>)
    | SetAccess(m: Member, mode: StoreAccessMode, storeIds: seq<nat>)
    | AddUser(m: Member)
    | AddDirector(m: Member, attachExistingUser: bool)
    | SetStatus(m: Member, status: UserStatus)
    | Delete(m: Member)
    | OrgAdded(org: nat)
    | StoreAdded(store: nat, org: nat)
    | LoggedIn(m: Member)

  function Execute(t: Tables, c: Command): Result<Tables, Error> {
    match c
    case Assign(m, codes) => AssignRoles(t, m, codes)
    case SetAccess(m, mode, storeIds) => SetStoreAccess(t, m, mode, storeIds)
    case AddUser(m) => CreateUser(t, m)
    case AddDirector(m, attach) => CreateDirector(t, m, attach)
    case SetStatus(m, status) => SetUserStatus(t, m, status)
    case Delete(m) => DeleteOrgUser(t, m)
    case OrgAdded(org) => Ok(t.(orgs := t.orgs + {org}))
    case StoreAdded(store, org) => if store in t.stores then Ok(t) else Ok(t.(stores := t.stores[store := org]))
    case LoggedIn(m) => if m in t.memberships then Ok(t.(sessionMembers := t.sessionMembers + {m})) else Ok(t)
  }

  function Step(t: Tables, c: Command): Tables {
    match Execute(t, c)
    case Ok(t') => t'
    case Rejected(_) => t
  }

  function Run(t: Tables, cs: seq<Command>): Tables
    decreases cs
  {
    if cs == [] then t else Run(Step(t, cs[0]), cs[1..])
  }

  // ----------------------------------------------------------------- row writes

  /** The inserted rows, when no key repeats: exactly the old ones and the new. */
  lemma {:induction false} InsertRolesResult(rows: set<RoleRow>, m: Member, codes: seq<string>)
    requires InsertRoles(rows, m, codes).Ok?
    ensures forall r :: r in InsertRoles(rows, m, codes).value <==> r in rows || (r.member == m && r.code in codes)
    decreases codes
  {
    if codes != [] {
      InsertRolesResult(rows + {RoleRow(m, codes[0])}, m, codes[1..]);
      assert forall code :: code in codes <==> code == codes[0] || code in codes[1..];
    }
  }

  lemma {:induction false} InsertStoresResult(rows: set<StoreRow>, m: Member, stores: seq<nat>)
    requires InsertStores(rows, m, stores).Ok?
    ensures forall r :: r in InsertStores(rows, m, stores).value <==> r in rows || (r.member == m && r.store in stores)
    decreases stores
  {
    if stores != [] {
      InsertStoresResult(rows + {StoreRow(m, stores[0])}, m, stores[1..]);
      assert forall s :: s in stores <==> s == stores[0] || s in stores[1..];
    }
  }

  /** After an assignment the member holds exactly the codes asked for, and nobody else's roles have moved. */
  lemma AssignedRoles(t: Tables, m: Member, codes: seq<string>, x: Member, code: string)
    requires AssignRoles(t, m, codes).Ok?
    ensures RoleRow(x, code) in AssignRoles(t, m, codes).value.roleRows
      <==> if x == m then code in codes else RoleRow(x, code) in t.roleRows
  {
    InsertRolesResult(RoleRowsWithout(t.roleRows, m), m, codes);
  }

  /** After store access is set the member has exactly the chosen stores, and nobody else's have moved. */
  lemma AccessAsSet(t: Tables, m: Member, mode: StoreAccessMode, storeIds: seq<nat>, x: Member, store: nat)
    requires SetStoreAccess(t, m, mode, storeIds).Ok?
    ensures StoreRow(x, store) in SetStoreAccess(t, m, mode, storeIds).value.storeRows
      <==> if x == m then mode.SelectedStores? && store in storeIds else StoreRow(x, store) in t.storeRows
  {
    InsertStoresResult(StoreRowsWithout(t.storeRows, m), m, if mode.SelectedStores? then storeIds else []);
  }

  // ------------------------------------------------------------------ florists

  predicate HasStore(t: Tables, m: Member) {
    exists r :: r in t.storeRows && r.member == m
  }

  /** Rows belong to memberships, and every florist is bound to at least one store. */
  ghost predicate Inv(t: Tables) {
    && (forall r :: r in t.roleRows ==> r.member in t.memberships)
    && (forall r :: r in t.storeRows ==> r.member in t.memberships)
    && (forall m :: m in t.memberships ==> m.login in t.users)
    && forall m :: RoleRow(m, FLORIST) in t.roleRows ==> m in t.memberships && t.memberships[m].mode.SelectedStores? && HasStore(t, m)
  }

  lemma AssignKeepsInv(t: Tables, m: Member, codes: seq<string>)
    requires Inv(t) && AssignRoles(t, m, codes).Ok?
    ensures Inv(AssignRoles(t, m, codes).value)
  {
    var t' := AssignRoles(t, m, codes).value;
    InsertRolesResult(RoleRowsWithout(t.roleRows, m), m, codes);
    forall x | RoleRow(x, FLORIST) in t'.roleRows ensures t'.memberships[x].mode.SelectedStores? && HasStore(t', x) {
      AssignedRoles(t, m, codes, x, FLORIST);
      if x == m {
        var s :| s in StoresOf(t, m);
        assert StoreRow(m, s) in t'.storeRows;
      } else {
        var r :| r in t.storeRows && r.member == x;
        assert r in t'.storeRows;
      }
    }
  }

  lemma SetAccessKeepsInv(t: Tables, m: Member, mode: StoreAccessMode, storeIds: seq<nat>)
    requires Inv(t) && SetStoreAccess(t, m, mode, storeIds).Ok?
    ensures Inv(SetStoreAccess(t, m, mode, storeIds).value)
  {
    var t' := SetStoreAccess(t, m, mode, storeIds).value;
    InsertStoresResult(StoreRowsWithout(t.storeRows, m), m, if mode.SelectedStores? then storeIds else []);
    forall x | RoleRow(x, FLORIST) in t'.roleRows ensures t'.memberships[x].mode.SelectedStores? && HasStore(t', x) {
      if x == m {
        assert FLORIST in RolesOf(t, m);
        assert StoreRow(m, storeIds[0]) in t'.storeRows;
      } else {
        var r :| r in t.storeRows && r.member == x;
        assert r in t'.storeRows;
      }
    }
  }

  lemma CreateKeepsInv(t: Tables, c: Command)
    requires Inv(t) && (c.AddUser? || c.AddDirector?)
    ensures Inv(Step(t, c))
  {
    var t' := Step(t, c);
    assert t'.storeRows == t.storeRows;
    forall x | RoleRow(x, FLORIST) in t'.roleRows ensures x in t'.memberships && t'.memberships[x].mode.SelectedStores? && HasStore(t', x) {
      assert RoleRow(x, FLORIST) in t.roleRows;
      assert HasStore(t, x);
    }
  }

  lemma DeleteKeepsInv(t: Tables, m: Member)
    requires Inv(t) && DeleteOrgUser(t, m).Ok?
    ensures Inv(DeleteOrgUser(t, m).value)
  {
    var t' := DeleteOrgUser(t, m).value;
    forall x | RoleRow(x, FLORIST) in t'.roleRows ensures t'.memberships[x].mode.SelectedStores? && HasStore(t', x) {
      var r :| r in t.storeRows && r.member == x;
      assert r in t'.storeRows;
    }
  }

  lemma StepKeepsInv(t: Tables, c: Command)
    requires Inv(t)
    ensures Inv(Step(t, c))
  {
    if Execute(t, c).Ok? {
      match c
      case Assign(m, codes) => AssignKeepsInv(t, m, codes);
      case SetAccess(m, mode, storeIds) => SetAccessKeepsInv(t, m, mode, storeIds);
      case AddUser(_) => CreateKeepsInv(t, c);
      case AddDirector(_, _) => CreateKeepsInv(t, c);
      case Delete(m) => DeleteKeepsInv(t, m);
      case _ =>
        assert forall m :: HasStore(t, m) ==> HasStore(Step(t, c), m);
    }
  }

  lemma {:induction false} RunKeepsInv(t: Tables, cs: seq<Command>)
    requires Inv(t)
    ensures Inv(Run(t, cs))
    decreases cs
  {
    if cs != [] {
      StepKeepsInv(t, cs[0]);
      RunKeepsInv(Step(t, cs[0]), cs[1..]);
    }
  }

  /**
   Roles and store access are set by separate commands, each checking only its own half against what is
   stored of the other; over any run every florist still has SELECTED_STORES with at least one store.
   */
  lemma FloristsKeepAStore(t: Tables, cs: seq<Command>, m: Member)
    requires Inv(t) && RoleRow(m, FLORIST) in Run(t, cs).roleRows
    ensures var t' := Run(t, cs);
      m in t'.memberships && t'.memberships[m].mode.SelectedStores? && exists store :: StoreRow(m, store) in t'.storeRows
  {
    RunKeepsInv(t, cs);
    var t' := Run(t, cs);
    assert HasStore(t', m);
    var r :| r in t'.storeRows && r.member == m;
    assert StoreRow(m, r.store) in t'.storeRows;
  }

  // ----------------------------------------------------------------- directors

  predicate ActiveDirector(t: Tables, m: Member) {
    RoleRow(m, DIRECTOR) in t.roleRows && m in t.memberships && t.memberships[m].status.ActiveMembership?
  }

  ghost predicate HasDirector(t: Tables, org: nat) {
    exists m :: ActiveDirector(t, m) && m.org == org
  }

  lemma SmallSet<T>(s: set<T>, x: T)
    requires forall y :: y in s ==> y == x
    ensures |s| <= 1
  {
    if x in s {
      assert s == {x};
    } else {
      assert s == {};
    }
  }

  /** With two or more director rows counted, some other member is an active director. */
  lemma AnotherDirector(t: Tables, m: Member) returns (other: Member)
    requires CountActiveDirectors(t, m.org) >= 2
    ensures ActiveDirector(t, other) && other.org == m.org && other != m
  {
    var rows := DirectorRows(t, m.org);
    if forall r :: r in rows ==> r == RoleRow(m, DIRECTOR) {
      SmallSet(rows, RoleRow(m, DIRECTOR));
    }
    var r :| r in rows && r != RoleRow(m, DIRECTOR);
    other := r.member;
    assert r == RoleRow(other, DIRECTOR);
  }

  lemma StepKeepsDirector(t: Tables, c: Command, org: nat)
    requires HasDirector(t, org)
    ensures HasDirector(Step(t, c), org)
  {
    var d :| ActiveDirector(t, d) && d.org == org;
    var t' := Step(t, c);
    if c.Assign? && t' != t {
      var keeper := d;
      if d == c.m && DIRECTOR !in c.codes {
        assert DIRECTOR in RolesOf(t, d);
        keeper := AnotherDirector(t, d);
      }
      AssignedRoles(t, c.m, c.codes, keeper, DIRECTOR);
      assert ActiveDirector(t', keeper);
    } else if c.Delete? && t' != t {
      var keeper := d;
      if d == c.m {
        assert DIRECTOR in RolesOf(t, d);
        keeper := AnotherDirector(t, d);
      }
      assert ActiveDirector(t', keeper);
    } else {
      assert ActiveDirector(t', d);
    }
  }

  /** An organization that has an active director keeps one over any run. */
  lemma {:induction false} OrganizationKeepsADirector(t: Tables, cs: seq<Command>, org: nat)
    requires HasDirector(t, org)
    ensures HasDirector(Run(t, cs), org)
    decreases cs
  {
    if cs != [] {
      StepKeepsDirector(t, cs[0], org);
      OrganizationKeepsADirector(Step(t, cs[0]), cs[1..], org);
    }
  }

  // ------------------------------------------------- directors who can log in

  /** A director whose user account is active. */
  predicate Usable(t: Tables, m: Member) {
    ActiveDirector(t, m) && m.login in t.users && t.users[m.login].ActiveUser?
  }

  ghost predicate HasUsableDirector(t: Tables, org: nat) {
    exists m :: Usable(t, m) && m.org == org
  }

  /** Nobody but this user is a usable director of the organization. */
  ghost predicate SoleUsable(t: Tables, org: nat, login: string) {
    forall m :: Usable(t, m) && m.org == org ==> m.login == login
  }

  predicate NoRepeats<T(==)>(s: seq<T>) {
    forall a, b :: 0 <= a < b < |s| ==> s[a] != s[b]
  }

  lemma NoRepeatsFromHead<T>(s: seq<T>)
    requires s != []
    ensures NoRepeats(s) <==> NoRepeats(s[1..]) && s[0] !in s[1..]
  {
    if NoRepeats(s[1..]) && s[0] !in s[1..] {
      forall a, b | 0 <= a < b < |s| ensures s[a] != s[b] {
        assert s[b] == s[1..][b - 1];
        if a > 0 { assert s[a] == s[1..][a - 1]; }
      }
    }
    if NoRepeats(s) {
      forall a, b | 0 <= a < b < |s[1..]| ensures s[1..][a] != s[1..][b] {
        assert s[a + 1] != s[b + 1];
      }
    }
  }

  /** The checks a role assignment passes, for a member who is a director. */
  predicate CanUndirect(t: Tables, m: Member, codes: seq<string>) {
    && m in t.memberships && CountActiveDirectors(t, m.org) > 1
    && (FLORIST in codes ==> t.memberships[m].mode.SelectedStores? && HasStore(t, m))
    && (forall code :: code in codes ==> code in SYSTEM_ROLES) && NoRepeats(codes)
  }

  /**
   The commands that take a director's usability away, with what the code checks before it does: nothing but
   membership for a block or an archiving, the count of director memberships for the other two.
   */
  predicate Removes(t: Tables, c: Command, org: nat) {
    match c
    case SetStatus(m, status) => !status.ActiveUser? && m in t.memberships
    case Delete(m) => m.org == org && m in t.memberships && CountActiveDirectors(t, org) > 1 && m !in t.sessionMembers
    case Assign(m, codes) => m.org == org && DIRECTOR !in codes && CanUndirect(t, m, codes)
    case _ => false
  }

  lemma {:induction false} InsertRolesSucceedsIff(rows: set<RoleRow>, m: Member, codes: seq<string>)
    ensures InsertRoles(rows, m, codes).Ok? <==> NoRepeats(codes) && forall code :: code in codes ==> RoleRow(m, code) !in rows
    decreases codes
  {
    if codes != [] {
      InsertRolesSucceedsIff(rows + {RoleRow(m, codes[0])}, m, codes[1..]);
      assert codes == [codes[0]] + codes[1..];
      NoRepeatsFromHead(codes);
    }
  }

  /** Taking the director's role away goes through exactly when those checks pass. */
  lemma UndirectSucceedsIff(t: Tables, m: Member, codes: seq<string>)
    requires DIRECTOR in RolesOf(t, m) && DIRECTOR !in codes
    ensures AssignRoles(t, m, codes).Ok? <==> CanUndirect(t, m, codes)
  {
    InsertRolesSucceedsIff(RoleRowsWithout(t.roleRows, m), m, codes);
    StoresOfAreRows(t, m);
  }

  lemma StoresOfAreRows(t: Tables, m: Member)
    ensures StoresOf(t, m) != {} <==> HasStore(t, m)
  {
    if HasStore(t, m) {
      var r :| r in t.storeRows && r.member == m;
      assert r.store in StoresOf(t, m);
    }
    if StoresOf(t, m) != {} {
      var s :| s in StoresOf(t, m);
    }
  }

  lemma UsableAfterAssign(t: Tables, m: Member, codes: seq<string>, x: Member)
    requires AssignRoles(t, m, codes).Ok?
    ensures Usable(AssignRoles(t, m, codes).value, x)
      <==> if x != m then Usable(t, x)
           else && DIRECTOR in codes && t.memberships[m].status.ActiveMembership?
                && m.login in t.users && t.users[m.login].ActiveUser?
  {
    AssignedRoles(t, m, codes, x, DIRECTOR);
  }

  lemma UsableHasRole(t: Tables, m: Member)
    requires Usable(t, m)
    ensures DIRECTOR in RolesOf(t, m) && m in t.memberships
  {
    assert RoleRow(m, DIRECTOR) in t.roleRows;
  }

  /** What each of these commands leaves usable. */
  lemma UsableAfterRemoval(t: Tables, c: Command, org: nat, x: Member)
    requires Inv(t) && Removes(t, c, org) && x.org == org && Usable(t, c.m) && c.m.org == org
    ensures Usable(Step(t, c), x) <==> Usable(t, x) && x.login != c.m.login
  {
    UsableHasRole(t, c.m);
    if c.Assign? {
      UndirectSucceedsIff(t, c.m, c.codes);
      UsableAfterAssign(t, c.m, c.codes, x);
    }
  }

  /** Any other command, and any that is not aimed at the sole usable director, leaves one. */
  lemma UsableIsKept(t: Tables, c: Command, org: nat, d: Member)
    requires Inv(t) && Usable(t, d) && d.org == org
    requires c.SetStatus? || c.Delete? || c.Assign? ==> c.m.login != d.login || !Removes(t, c, org)
    ensures Usable(Step(t, c), d)
  {
    UsableHasRole(t, d);
    if c.Assign? && AssignRoles(t, c.m, c.codes).Ok? {
      UsableAfterAssign(t, c.m, c.codes, d);
      if c.m == d && DIRECTOR !in c.codes {
        UndirectSucceedsIff(t, d, c.codes);
      }
    }
  }

  /**
   The last-director check counts memberships, not usable accounts. An organization with a usable director
   loses it exactly when a block, archiving, deletion or role change that passes its checks hits the only user
   who was one: blocking and archiving check no director, and a second, blocked one lets the others through.
   */
  lemma LosesUsableDirectorIff(t: Tables, c: Command, org: nat)
    requires HasUsableDirector(t, org) && Inv(t)
    ensures !HasUsableDirector(Step(t, c), org) <==> Removes(t, c, org) && SoleUsable(t, org, c.m.login)
  {
    var d :| Usable(t, d) && d.org == org;
    if Removes(t, c, org) && SoleUsable(t, org, c.m.login) {
      assert d.login == c.m.login;
      if c.m.org == org {
        assert d == c.m;
        forall x: Member | x.org == org ensures !Usable(Step(t, c), x) {
          UsableAfterRemoval(t, c, org, x);
        }
      } else {
        forall x: Member | x.org == org ensures !Usable(Step(t, c), x) {
        }
      }
    } else {
      var keeper := d;
      if Removes(t, c, org) {
        keeper :| Usable(t, keeper) && keeper.org == org && keeper.login != c.m.login;
      }
      UsableIsKept(t, c, org, keeper);
    }
  }

  const OWNER := Member(1, "owner")

  /** A new organization's only director can be blocked, though no director is left who can log in. */
  lemma OnlyDirectorCanBeBlocked()
    ensures var t := Run(EMPTY, [OrgAdded(1), AddDirector(OWNER, false)]);
      HasUsableDirector(t, 1) && !HasUsableDirector(Step(t, SetStatus(OWNER, BlockedUser)), 1)
  {
    var t1 := Step(EMPTY, OrgAdded(1));
    var t := Step(t1, AddDirector(OWNER, false));
    var cs := [OrgAdded(1), AddDirector(OWNER, false)];
    assert cs[1..] == [AddDirector(OWNER, false)] && cs[1..][1..] == [];
    assert Run(t1, cs[1..]) == Run(t, []);
    assert Usable(t, OWNER) && SoleUsable(t, 1, OWNER.login);
    StepKeepsInv(EMPTY, OrgAdded(1));
    StepKeepsInv(t1, AddDirector(OWNER, false));
    LosesUsableDirectorIff(t, SetStatus(OWNER, BlockedUser), 1);
  }

  // -------------------------------------------------------------- deletion

  /** Once a member has opened a session, the row that records it forbids deleting the member for good. */
  lemma {:induction false} LoggedInMemberIsNeverDeleted(t: Tables, cs: seq<Command>, m: Member)
    requires m in t.memberships && m in t.sessionMembers
    ensures m in Run(t, cs).memberships && m in Run(t, cs).sessionMembers && DeleteOrgUser(Run(t, cs), m).Rejected?
    decreases cs
  {
    if cs != [] {
      SessionRowStays(t, cs[0], m);
      LoggedInMemberIsNeverDeleted(Step(t, cs[0]), cs[1..], m);
    }
  }

  lemma SessionRowStays(t: Tables, c: Command, m: Member)
    requires m in t.memberships && m in t.sessionMembers
    ensures m in Step(t, c).memberships && m in Step(t, c).sessionMembers
  {
    if c.Delete? && Execute(t, c).Ok? {
      var t1 := t.memberships - {c.m};
      assert m in t1;
    }
  }
}
