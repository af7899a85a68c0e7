/** `findOrCreate`: reconciles the local admin user with the identity
    provider's profile and roles, in the current and the older version. Each
    version is specified by a function giving the value returned and the
    writes made to the user table, and implemented by a method on the table. */
module AdminUserService {
  import opened Common
  import opened Host
  import opened RoleMappingService
  import opened RoleResolution

  /** The identity provider's userinfo: `email`, `preferred_username`,
      `given_name`, `family_name` and `sub`. */
  datatype Profile = Profile(email: string, preferredUsername: Option<string>, givenName: Option<string>,
                             familyName: Option<string>, sub: Option<string>)

  function Username(p: Profile): string { OrEmpty(p.preferredUsername) }
  function Firstname(p: Profile): string { OrEmpty(p.givenName) }
  function Lastname(p: Profile): string { OrEmpty(p.familyName) }

  /** The first user with this email, as a lookup limited to one row returns it. */
  function FindByEmail(users: seq<AdminUser>, email: string): (r: Option<AdminUser>)
    ensures r.Some? <==> exists i :: 0 <= i < |users| && users[i].email == email
    ensures r.Some? ==> exists i :: 0 <= i < |users| && users[i] == r.value && r.value.email == email &&
                                    forall j :: 0 <= j < i ==> users[j].email != email
  {
    if |users| == 0 then None
    else if users[0].email == email then Some(users[0])
    else
      var r := FindByEmail(users[1..], email);
      if r.Some? then
        var i :| 0 <= i < |users[1..]| && users[1..][i] == r.value && r.value.email == email &&
                 forall j :: 0 <= j < i ==> users[1..][j].email != email;
        assert users[i + 1] == r.value;
        r
      else
        r
  }

  /** `JSON.stringify(adminUser.roles) !== JSON.stringify(userRoles)`: bare ids
      serialise like the numbers they are, a role object never serialises like
      a number, so this is order-sensitive inequality with the id list. */
  predicate RolesChanged(stored: seq<RoleRef>, computed: seq<int>)
  {
    stored != Refs(AsIds, computed)
  }

  /** A write the reconciler makes: create a user, or update by id the
      first name, last name and roles (the store stamps `updatedAt`). */
  datatype Write = Insert(user: AdminUser) | Patch(id: nat, firstname: string, lastname: string, roles: seq<RoleRef>, at: string)

  function PatchUser(u: AdminUser, w: Write): AdminUser
    requires w.Patch?
  {
    if u.id == w.id then u.(firstname := w.firstname, lastname := w.lastname, roles := w.roles, updatedAt := w.at) else u
  }

  function ApplyWrite(users: seq<AdminUser>, w: Write): seq<AdminUser>
  {
    match w
    case Insert(u) => users + [u]
    case Patch(_, _, _, _, _) => seq(|users|, i requires 0 <= i < |users| => PatchUser(users[i], w))
  }

  function ApplyWrites(users: seq<AdminUser>, ws: seq<Write>): seq<AdminUser>
    decreases |ws|
  {
    if |ws| == 0 then users else ApplyWrites(ApplyWrite(users, ws[0]), ws[1..])
  }

  function InsertCount(ws: seq<Write>): nat
  {
    if |ws| == 0 then 0 else (if ws[0].Insert? then 1 else 0) + InsertCount(ws[1..])
  }

  /** The record the store creates for a new user: given id, `isActive`
      true, `blocked` unset, roles as later reads return them. */
  function NewUser(id: nat, p: Profile, roles: seq<int>, repr: RolesRepr, now: string): AdminUser
  {
    AdminUser(id, p.email, Firstname(p), Lastname(p), Username(p), true, None, Refs(repr, roles), now, now)
  }

  /** What one call of `findOrCreate` returns and writes. */
  datatype Reconciliation = Reconciliation(result: Result<AdminUser, JsError>, writes: seq<Write>)

  const UserFailedMessage := "Failed to create/update user."

  /** Current `findOrCreate`. A failed mapping read is rethrown as the generic
      error. A new user is created, then `adminUser.roles` is read on
      `undefined`: the TypeError is rethrown as the generic error and the
      created record stays. An existing user is updated when the role lists
      differ, and the record read before the update is returned. */
  function ReconcileCurrent(users: seq<AdminUser>, nextId: nat, repr: RolesRepr, mappings: Result<seq<Row>, JsError>,
                            p: Profile, fetch: RoleFetch, defaultRoleId: int, now: string): Reconciliation
  {
    if mappings.Err? then Reconciliation(Err(Error(UserFailedMessage)), [])
    else
      var roles := ResolvedRolesCurrent(FetchUserRolesCurrent(p.sub, fetch), mappings.value, defaultRoleId);
      var found := FindByEmail(users, p.email);
      if found.None? then
        Reconciliation(Err(Error(UserFailedMessage)), [Insert(NewUser(nextId, p, roles, repr, now))])
      else if RolesChanged(found.value.roles, roles) then
        Reconciliation(Ok(found.value), [Patch(found.value.id, Firstname(p), Lastname(p), Refs(repr, roles), now)])
      else
        Reconciliation(Ok(found.value), [])
  }

  /** Older `findOrCreate`. Mapping-read errors propagate unwrapped. A new user
      is created and the created record returned; otherwise an update is made
      only when the role lists differ (`else if`). */
  function ReconcileLegacy(users: seq<AdminUser>, nextId: nat, repr: RolesRepr, mappings: Result<seq<Row>, JsError>,
                           p: Profile, fetch: RoleFetch, defaultRole: int, now: string): Reconciliation
  {
    if mappings.Err? then Reconciliation(Err(mappings.error), [])
    else
      var roles := ResolvedRolesLegacy(FetchUserRolesLegacy(p.sub, fetch), mappings.value, defaultRole);
      var found := FindByEmail(users, p.email);
      if found.None? then
        var created := NewUser(nextId, p, roles, repr, now);
        Reconciliation(Ok(created), [Insert(created)])
      else if RolesChanged(found.value.roles, roles) then
        Reconciliation(Ok(found.value), [Patch(found.value.id, Firstname(p), Lastname(p), Refs(repr, roles), now)])
      else
        Reconciliation(Ok(found.value), [])
  }

  /** The ids of the stored role relation, whichever form a read returns. */
  function StoredRoleIds(stored: seq<RoleRef>): seq<int>
  {
    seq(|stored|, i requires 0 <= i < |stored| => stored[i].id)
  }

  /** The reconciler the comments describe ("create or update user only when
      needed"): the created record is returned, and an existing user is
      updated only when the set of stored role ids differs from the set of
      computed ones, in whatever order and form the store returns them. */
  function ReconcileIntended(users: seq<AdminUser>, nextId: nat, repr: RolesRepr, mappings: Result<seq<Row>, JsError>,
                             p: Profile, fetch: RoleFetch, defaultRoleId: int, now: string): Reconciliation
  {
    if mappings.Err? then Reconciliation(Err(Error(UserFailedMessage)), [])
    else
      var roles := ResolvedRolesCurrent(FetchUserRolesCurrent(p.sub, fetch), mappings.value, defaultRoleId);
      var found := FindByEmail(users, p.email);
      if found.None? then
        var created := NewUser(nextId, p, roles, repr, now);
        Reconciliation(Ok(created), [Insert(created)])
      else if Elements(StoredRoleIds(found.value.roles)) != Elements(roles) then
        Reconciliation(Ok(found.value), [Patch(found.value.id, Firstname(p), Lastname(p), Refs(repr, roles), now)])
      else
        Reconciliation(Ok(found.value), [])
  }

  /** The set of ids a role list holds. */
  function Elements(ids: seq<int>): set<int>
  {
    set x | x in ids
  }

  /** The store's records keep ids below the next id to assign, ids distinct. */
  ghost predicate UsersValid(users: seq<AdminUser>, nextId: nat)
  {
    && (forall i :: 0 <= i < |users| ==> users[i].id < nextId)
    && (forall i, j :: 0 <= i < j < |users| ==> users[i].id != users[j].id)
  }

  /** The `admin::user` table. `repr` is how reads return a user's roles. */
  class UserTable {
    var users: seq<AdminUser>
    var nextId: nat
    const repr: RolesRepr

    ghost predicate Valid()
      reads this
    {
      UsersValid(users, nextId)
    }

    constructor (users: seq<AdminUser>, nextId: nat, repr: RolesRepr)
      requires UsersValid(users, nextId)
      ensures Valid() && this.users == users && this.nextId == nextId && this.repr == repr
    {
      this.users := users;
      this.nextId := nextId;
      this.repr := repr;
    }

    /** Lookup by email, limited to one row, roles populated. */
    method FindOne(email: string) returns (found: Option<AdminUser>)
      ensures found == FindByEmail(users, email)
    {
      var i := 0;
      while i < |users|
        invariant 0 <= i <= |users|
        invariant FindByEmail(users, email) == FindByEmail(users[i..], email)
      {
        if users[i].email == email {
          return Some(users[i]);
        }
        assert users[i..][1..] == users[i + 1..];
        i := i + 1;
      }
      return None;
    }

    /** Create a user; the store assigns the id and the timestamps. */
    method Create(p: Profile, roles: seq<int>, now: string) returns (created: AdminUser)
      requires Valid()
      modifies this
      ensures Valid()
      ensures created == NewUser(old(nextId), p, roles, repr, now)
      ensures users == ApplyWrite(old(users), Insert(created)) && nextId == old(nextId) + 1
    {
      created := NewUser(nextId, p, roles, repr, now);
      users := users + [created];
      nextId := nextId + 1;
    }

    /** Update by id of the first name, last name and roles. */
    method Update(id: nat, firstname: string, lastname: string, roles: seq<int>, now: string)
      requires Valid()
      modifies this`users
      ensures Valid()
      ensures users == ApplyWrite(old(users), Patch(id, firstname, lastname, Refs(repr, roles), now))
    {
      var w := Patch(id, firstname, lastname, Refs(repr, roles), now);
      var before := users;
      users := seq(|before|, i requires 0 <= i < |before| => PatchUser(before[i], w));
      assert forall i :: 0 <= i < |users| ==> users[i].id == before[i].id;
    }
  }

  /** Current `findOrCreate` on the tables. */
  method FindOrCreateCurrent(table: UserTable, mappings: MappingTable, p: Profile, fetch: RoleFetch,
                             defaultRoleId: int, now: string) returns (res: Result<AdminUser, JsError>)
    requires table.Valid()
    modifies table
    ensures table.Valid()
    ensures var spec := ReconcileCurrent(old(table.users), old(table.nextId), table.repr, mappings.ReadAll(),
                                         p, fetch, defaultRoleId, now);
      && res == spec.result
      && table.users == ApplyWrites(old(table.users), spec.writes)
      && table.nextId == old(table.nextId) + InsertCount(spec.writes)
  {
    var adminUser := table.FindOne(p.email);
    var roleMappings := GetMappingsCurrent(mappings);
    if roleMappings.Err? {
      return Err(Error(UserFailedMessage));
    }
    var applied := [];
    var keycloakRoles := FetchUserRolesCurrent(p.sub, fetch);
    if keycloakRoles.Ok? {
      applied := ApplyRolesCurrent(keycloakRoles.value, roleMappings.value);
    }
    var userRoles := UserRoles(applied, defaultRoleId);
    if adminUser.None? {
      var _ := table.Create(p, userRoles, now);
      // `adminUser` is still undefined: reading its roles throws, and the
      // catch rethrows the generic error
      return Err(Error(UserFailedMessage));
    }
    if RolesChanged(adminUser.value.roles, userRoles) {
      table.Update(adminUser.value.id, Firstname(p), Lastname(p), userRoles, now);
    }
    return Ok(adminUser.value);
  }

  /** Older `findOrCreate` on the tables. */
  method FindOrCreateLegacy(table: UserTable, mappings: MappingTable, p: Profile, fetch: RoleFetch,
                            defaultRole: int, now: string) returns (res: Result<AdminUser, JsError>)
    requires table.Valid()
    modifies table
    ensures table.Valid()
    ensures var spec := ReconcileLegacy(old(table.users), old(table.nextId), table.repr, mappings.ReadAll(),
                                        p, fetch, defaultRole, now);
      && res == spec.result
      && table.users == ApplyWrites(old(table.users), spec.writes)
      && table.nextId == old(table.nextId) + InsertCount(spec.writes)
  {
    var adminUser := table.FindOne(p.email);
    var roleMappings := GetMappingsLegacy(mappings);
    if roleMappings.Err? {
      return Err(roleMappings.error);
    }
    var applied := [];
    var keycloakRoles := FetchUserRolesLegacy(p.sub, fetch);
    if keycloakRoles.Ok? {
      applied := ApplyRolesLegacy(keycloakRoles.value, roleMappings.value);
    }
    var userRoles := UserRoles(applied, defaultRole);
    if adminUser.None? {
      var created := table.Create(p, userRoles, now);
      return Ok(created);
    } else if RolesChanged(adminUser.value.roles, userRoles) {
      table.Update(adminUser.value.id, Firstname(p), Lastname(p), userRoles, now);
    }
    return Ok(adminUser.value);
  }

  // ---------------------------------------------------------------------
  // Properties

  /** `RolesChanged` is exactly "not the same ids as bare numbers, in the same order". */
  lemma RolesChangedMeaning(stored: seq<RoleRef>, computed: seq<int>)
    ensures !RolesChanged(stored, computed) <==>
              |stored| == |computed| && forall i :: 0 <= i < |stored| ==> stored[i] == BareId(computed[i])
  {
    if |stored| == |computed| && forall i :: 0 <= i < |stored| ==> stored[i] == BareId(computed[i]) {
      assert stored == Refs(AsIds, computed);
    }
  }

  /** An update writes only the first name, last name, roles and update
      stamp of the user with that id; no record is added or removed. */
  lemma PatchTouchesOnlyNamesAndRoles(users: seq<AdminUser>, w: Write)
    requires w.Patch?
    ensures var after := ApplyWrite(users, w);
      |after| == |users| &&
      forall i :: 0 <= i < |users| ==>
        && after[i].id == users[i].id && after[i].email == users[i].email
        && after[i].username == users[i].username && after[i].isActive == users[i].isActive
        && after[i].blocked == users[i].blocked && after[i].createdAt == users[i].createdAt
        && (users[i].id != w.id ==> after[i] == users[i])
        && (users[i].id == w.id ==> after[i].firstname == w.firstname && after[i].lastname == w.lastname
                                    && after[i].roles == w.roles)
  {
  }

  /** Current version, unknown email: the call fails with the generic error,
      yet exactly one record is created, active, with the profile's names
      (missing ones empty) and the resolved roles. */
  lemma CurrentFirstLoginFailsButPersists(users: seq<AdminUser>, nextId: nat, repr: RolesRepr, rows: seq<Row>,
                                          p: Profile, fetch: RoleFetch, defaultRoleId: int, now: string)
    requires FindByEmail(users, p.email).None?
    ensures var spec := ReconcileCurrent(users, nextId, repr, Ok(rows), p, fetch, defaultRoleId, now);
      var u := NewUser(nextId, p, ResolvedRolesCurrent(FetchUserRolesCurrent(p.sub, fetch), rows, defaultRoleId), repr, now);
      && spec.result == Err(Error(UserFailedMessage))
      && spec.writes == [Insert(u)]
      && ApplyWrites(users, spec.writes) == users + [u]
      && u.email == p.email && u.isActive && u.username == OrEmpty(p.preferredUsername)
      && u.firstname == OrEmpty(p.givenName) && u.lastname == OrEmpty(p.familyName)
      && FindByEmail(users + [u], p.email) == Some(u)
  {
    var u := NewUser(nextId, p, ResolvedRolesCurrent(FetchUserRolesCurrent(p.sub, fetch), rows, defaultRoleId), repr, now);
    FindAppended(users, u);
    assert [Insert(u)][1..] == [];
  }

  lemma {:induction false} FindAppended(users: seq<AdminUser>, u: AdminUser)
    requires FindByEmail(users, u.email).None?
    ensures FindByEmail(users + [u], u.email) == Some(u)
  {
    if |users| > 0 {
      assert (users + [u])[1..] == users[1..] + [u];
      FindAppended(users[1..], u);
    }
  }

  /** Current version: the login after the failing first one finds the
      created record and returns it. */
  lemma CurrentSecondLoginSucceeds(users: seq<AdminUser>, nextId: nat, repr: RolesRepr, rows: seq<Row>,
                                   p: Profile, fetch: RoleFetch, defaultRoleId: int, now: string, later: string)
    requires FindByEmail(users, p.email).None?
    ensures var first := ReconcileCurrent(users, nextId, repr, Ok(rows), p, fetch, defaultRoleId, now);
      var second := ReconcileCurrent(ApplyWrites(users, first.writes), nextId + 1, repr, Ok(rows), p, fetch, defaultRoleId, later);
      var u := NewUser(nextId, p, ResolvedRolesCurrent(FetchUserRolesCurrent(p.sub, fetch), rows, defaultRoleId), repr, now);
      first.result.Err? && second.result == Ok(u)
  {
    CurrentFirstLoginFailsButPersists(users, nextId, repr, rows, p, fetch, defaultRoleId, now);
  }

  /** The current version returns the record read before any update, even
      when it then rewrites that user's roles. */
  lemma CurrentReturnsRecordBeforeUpdate(users: seq<AdminUser>, nextId: nat, repr: RolesRepr, rows: seq<Row>,
                                         p: Profile, fetch: RoleFetch, defaultRoleId: int, now: string)
    requires FindByEmail(users, p.email).Some?
    ensures var spec := ReconcileCurrent(users, nextId, repr, Ok(rows), p, fetch, defaultRoleId, now);
      var stored := FindByEmail(users, p.email).value;
      var roles := ResolvedRolesCurrent(FetchUserRolesCurrent(p.sub, fetch), rows, defaultRoleId);
      && spec.result == Ok(stored)
      && (|spec.writes| > 0 <==> RolesChanged(stored.roles, roles))
      && (spec.writes != [] ==> spec.writes == [Patch(stored.id, Firstname(p), Lastname(p), Refs(repr, roles), now)])
  {
  }

  /** Every failure of the current version is the one generic error. */
  lemma CurrentErrorsAreGeneric(users: seq<AdminUser>, nextId: nat, repr: RolesRepr, mappings: Result<seq<Row>, JsError>,
                                p: Profile, fetch: RoleFetch, defaultRoleId: int, now: string)
    ensures var spec := ReconcileCurrent(users, nextId, repr, mappings, p, fetch, defaultRoleId, now);
      spec.result.Err? ==> spec.result.error == Error(UserFailedMessage)
    ensures mappings.Err? ==> ReconcileCurrent(users, nextId, repr, mappings, p, fetch, defaultRoleId, now).writes == []
  {
  }

  /** With populated role objects (how both versions read users), the change
      check holds for every stored user: each login of an existing user
      rewrites its roles. */
  lemma PopulatedRolesAlwaysChanged(users: seq<AdminUser>, nextId: nat, rows: seq<Row>,
                                    p: Profile, fetch: RoleFetch, defaultRoleId: int, now: string)
    requires forall i :: 0 <= i < |users| ==> forall k :: 0 <= k < |users[i].roles| ==> users[i].roles[k].RoleObject?
    requires FindByEmail(users, p.email).Some?
    ensures |ReconcileCurrent(users, nextId, AsObjects, Ok(rows), p, fetch, defaultRoleId, now).writes| == 1
    ensures |ReconcileLegacy(users, nextId, AsObjects, Ok(rows), p, fetch, defaultRoleId, now).writes| == 1
  {
    var stored := FindByEmail(users, p.email).value;
    var rc := ResolvedRolesCurrent(FetchUserRolesCurrent(p.sub, fetch), rows, defaultRoleId);
    var rl := ResolvedRolesLegacy(FetchUserRolesLegacy(p.sub, fetch), rows, defaultRoleId);
    assert |rc| >= 1 && |rl| >= 1;
    assert Refs(AsIds, rc)[0] == BareId(rc[0]);
    assert Refs(AsIds, rl)[0] == BareId(rl[0]);
    if |stored.roles| > 0 {
      assert stored.roles[0].RoleObject?;
    }
  }

  /** Ids stored as bare numbers: a login that found the user leaves a state
      in which the same login writes nothing. */
  lemma BareIdsLoginIsIdempotent(users: seq<AdminUser>, nextId: nat, rows: seq<Row>,
                                 p: Profile, fetch: RoleFetch, defaultRoleId: int, now: string, later: string)
    requires FindByEmail(users, p.email).Some?
    ensures var first := ReconcileCurrent(users, nextId, AsIds, Ok(rows), p, fetch, defaultRoleId, now);
      ReconcileCurrent(ApplyWrites(users, first.writes), nextId, AsIds, Ok(rows), p, fetch, defaultRoleId, later).writes == []
  {
    var first := ReconcileCurrent(users, nextId, AsIds, Ok(rows), p, fetch, defaultRoleId, now);
    if first.writes != [] {
      var stored := FindByEmail(users, p.email).value;
      var w := first.writes[0];
      assert first.writes[1..] == [];
      var after := ApplyWrite(users, w);
      PatchedFound(users, w, p.email);
      var again := FindByEmail(after, p.email).value;
      assert again.roles == w.roles;
    }
  }

  /** An update by the found user's id keeps that user first for its email
      and gives it the written fields. */
  lemma {:induction false} PatchedFound(users: seq<AdminUser>, w: Write, email: string)
    requires w.Patch?
    requires FindByEmail(users, email).Some? && FindByEmail(users, email).value.id == w.id
    ensures FindByEmail(ApplyWrite(users, w), email) == Some(PatchUser(FindByEmail(users, email).value, w))
  {
    var after := ApplyWrite(users, w);
    var f := FindByEmail(users, email).value;
    var i :| 0 <= i < |users| && users[i] == f && f.email == email &&
             forall j :: 0 <= j < i ==> users[j].email != email;
    assert after[i] == PatchUser(f, w);
    FindAt(after, email, i);
  }

  lemma {:induction false} FindAt(users: seq<AdminUser>, email: string, i: nat)
    requires i < |users| && users[i].email == email
    requires forall j :: 0 <= j < i ==> users[j].email != email
    ensures FindByEmail(users, email) == Some(users[i])
  {
    if i > 0 {
      FindAt(users[1..], email, i - 1);
    }
  }

  /** Older version, unknown email: one record is created and that record is
      returned; nothing else is written in the same call. */
  lemma LegacyNewUserCreatedAndReturned(users: seq<AdminUser>, nextId: nat, repr: RolesRepr, rows: seq<Row>,
                                        p: Profile, fetch: RoleFetch, defaultRole: int, now: string)
    requires FindByEmail(users, p.email).None?
    ensures var spec := ReconcileLegacy(users, nextId, repr, Ok(rows), p, fetch, defaultRole, now);
      var u := NewUser(nextId, p, ResolvedRolesLegacy(FetchUserRolesLegacy(p.sub, fetch), rows, defaultRole), repr, now);
      spec.result == Ok(u) && spec.writes == [Insert(u)] && u.isActive && u.firstname == OrEmpty(p.givenName)
  {
  }

  /** Older version, existing user: an update iff the role lists differ,
      otherwise nothing is written; mapping-read errors propagate as they are. */
  lemma LegacyUpdateIffChanged(users: seq<AdminUser>, nextId: nat, repr: RolesRepr, mappings: Result<seq<Row>, JsError>,
                               p: Profile, fetch: RoleFetch, defaultRole: int, now: string)
    requires FindByEmail(users, p.email).Some?
    ensures var spec := ReconcileLegacy(users, nextId, repr, mappings, p, fetch, defaultRole, now);
      && (mappings.Err? ==> spec == Reconciliation(Err(mappings.error), []))
      && (mappings.Ok? ==>
            var stored := FindByEmail(users, p.email).value;
            spec.result == Ok(stored) &&
            (spec.writes != [] <==> RolesChanged(stored.roles, ResolvedRolesLegacy(FetchUserRolesLegacy(p.sub, fetch), mappings.value, defaultRole))))
  {
  }

  /** The intended reconciler returns the created record on a first login,
      and a second login with the same inputs writes nothing, whichever form
      the store returns roles in. */
  lemma IntendedReconcileSettles(users: seq<AdminUser>, nextId: nat, repr: RolesRepr, rows: seq<Row>,
                                 p: Profile, fetch: RoleFetch, defaultRoleId: int, now: string, later: string)
    ensures var first := ReconcileIntended(users, nextId, repr, Ok(rows), p, fetch, defaultRoleId, now);
      var next := nextId + InsertCount(first.writes);
      && first.result.Ok?
      && ReconcileIntended(ApplyWrites(users, first.writes), next, repr, Ok(rows), p, fetch, defaultRoleId, later).writes == []
  {
    var first := ReconcileIntended(users, nextId, repr, Ok(rows), p, fetch, defaultRoleId, now);
    var roles := ResolvedRolesCurrent(FetchUserRolesCurrent(p.sub, fetch), rows, defaultRoleId);
    assert StoredRoleIds(Refs(repr, roles)) == roles;
    if first.writes != [] {
      var w := first.writes[0];
      assert first.writes[1..] == [];
      if w.Insert? {
        FindAppended(users, w.user);
      } else {
        PatchedFound(users, w, p.email);
      }
    }
  }

  /** The intended reconciler ignores the order in which the store returns
      the roles: stored ids holding the same ids as the computed list, in any
      order, cause no write; stored ids holding another set cause exactly one
      update of that user. */
  lemma IntendedComparesRoleSets(users: seq<AdminUser>, nextId: nat, repr: RolesRepr, rows: seq<Row>,
                                 p: Profile, fetch: RoleFetch, defaultRoleId: int, now: string)
    requires FindByEmail(users, p.email).Some?
    ensures var u := FindByEmail(users, p.email).value;
      var roles := ResolvedRolesCurrent(FetchUserRolesCurrent(p.sub, fetch), rows, defaultRoleId);
      var r := ReconcileIntended(users, nextId, repr, Ok(rows), p, fetch, defaultRoleId, now);
      && r.result == Ok(u)
      && ((forall x :: x in StoredRoleIds(u.roles) <==> x in roles) <==> r.writes == [])
      && (r.writes != [] ==> r.writes == [Patch(u.id, Firstname(p), Lastname(p), Refs(repr, roles), now)])
  {
    var u := FindByEmail(users, p.email).value;
    var roles := ResolvedRolesCurrent(FetchUserRolesCurrent(p.sub, fetch), rows, defaultRoleId);
    if Elements(StoredRoleIds(u.roles)) == Elements(roles) {
      forall x ensures x in StoredRoleIds(u.roles) <==> x in roles {
        assert x in StoredRoleIds(u.roles) <==> x in Elements(StoredRoleIds(u.roles));
        assert x in roles <==> x in Elements(roles);
      }
    }
  }

  /** Where the current version as written fails a first login, the intended
      one succeeds with the same write. */
  lemma IntendedFixesFirstLogin(users: seq<AdminUser>, nextId: nat, repr: RolesRepr, rows: seq<Row>,
                                p: Profile, fetch: RoleFetch, defaultRoleId: int, now: string)
    requires FindByEmail(users, p.email).None?
    ensures var asWritten := ReconcileCurrent(users, nextId, repr, Ok(rows), p, fetch, defaultRoleId, now);
      var intended := ReconcileIntended(users, nextId, repr, Ok(rows), p, fetch, defaultRoleId, now);
      asWritten.result.Err? && intended.result == Ok(intended.writes[0].user) && intended.writes == asWritten.writes
  {
  }
}
