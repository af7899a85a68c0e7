/** Plugin start-up: the order of the bootstrap steps, the seeder of the
    default `SUPER_ADMIN` mapping, and the request-routing predicate of the
    admin-route override, in the current and the older version. */
module Bootstrap {
  import opened Common
  import opened Host
  import opened RoleMappingService

  // ---------------------------------------------------------------------
  // Routing predicate of overrideAdminRoutes

  /** What the interception middleware does with a request. */
  datatype RouteDecision = RunLogin | RedirectToLogin | CallNext

  const LoginPath := "/admin/login"

  /** The path fragments the current override blocks for `GET`. */
  const BlockedFragments: seq<string> := ["auth/reset-password", "auth/forgot-password", "auth/register"]

  /** Current predicate (also the bundled one). */
  function RouteCurrent(path: string, verb: string): RouteDecision
  {
    if path == LoginPath && verb == "POST" then RunLogin
    else if verb == "GET" && (Includes(path, "auth/reset-password") || Includes(path, "auth/forgot-password")
                              || Includes(path, "auth/register")) then RedirectToLogin
    else CallNext
  }

  /** Older predicate: reset-password only on the exact path, register as a
      substring, no forgot-password. */
  function RouteLegacy(path: string, verb: string): RouteDecision
  {
    if path == LoginPath && verb == "POST" then RunLogin
    else if verb == "GET" && (path == "/admin/auth/reset-password" || Includes(path, "/admin/auth/register")) then RedirectToLogin
    else CallNext
  }

  /** The current predicate redirects a `GET` exactly when one of the blocked
      fragments occurs in the path, and intercepts nothing else but the login. */
  lemma RouteCurrentMeaning(path: string, verb: string)
    ensures RouteCurrent(path, verb) == RunLogin <==> path == LoginPath && verb == "POST"
    ensures RouteCurrent(path, verb) == RedirectToLogin <==>
              verb == "GET" && exists k :: 0 <= k < |BlockedFragments| && Includes(path, BlockedFragments[k])
    ensures RouteCurrent(path, verb) == CallNext <==>
              (path != LoginPath || verb != "POST") &&
              !(verb == "GET" && exists k :: 0 <= k < |BlockedFragments| && Includes(path, BlockedFragments[k]))
  {
    assert BlockedFragments[0] == "auth/reset-password";
    assert BlockedFragments[1] == "auth/forgot-password";
    assert BlockedFragments[2] == "auth/register";
  }

  /** Every path the older override redirects, the current one redirects too. */
  lemma LegacyRedirectsAreCurrentRedirects(path: string, verb: string)
    ensures RouteLegacy(path, verb) == RedirectToLogin ==> RouteCurrent(path, verb) == RedirectToLogin
  {
    if RouteLegacy(path, verb) == RedirectToLogin {
      if path == "/admin/auth/reset-password" {
        assert path == "/admin/" + "auth/reset-password";
        assert path[7..7 + 19] == "auth/reset-password";
        assert OccursAt(path, "auth/reset-password", 7);
      } else {
        var i :| 0 <= i <= |path| - 20 && OccursAt(path, "/admin/auth/register", i);
        assert path[i + 7..i + 7 + |"auth/register"|] == path[i..i + 20][7..];
        assert OccursAt(path, "auth/register", i + 7);
      }
    }
  }

  /** The forgot-password page is redirected by the current version only. */
  lemma ForgotPasswordRoutesDiffer(fp: string)
    requires fp == "/admin/" + "auth/forgot-password"
    ensures RouteCurrent(fp, "GET") == RedirectToLogin
    ensures RouteLegacy(fp, "GET") == CallNext
  {
    assert fp[7..7 + 20] == "auth/forgot-password";
    assert OccursAt(fp, "auth/forgot-password", 7);
    assert fp != "/admin/auth/reset-password";
    CharAbsentNotIncluded(fp, "/admin/auth/register", 'e');
  }

  /** A sub-path of reset-password is redirected by the current version only. */
  lemma ResetPasswordSubpathRoutesDiffer(rp: string)
    requires rp == "/admin/" + "auth/reset-password" + "/x"
    ensures RouteCurrent(rp, "GET") == RedirectToLogin
    ensures RouteLegacy(rp, "GET") == CallNext
  {
    assert rp[7..7 + 19] == "auth/reset-password";
    assert OccursAt(rp, "auth/reset-password", 7);
    assert |rp| != |"/admin/auth/reset-password"|;
    CharAbsentNotIncluded(rp, "/admin/auth/register", 'g');
  }

  /** Neither version intercepts a non-`GET` register call or a `GET` of
      the login page. */
  lemma RoutesPassThrough()
    ensures RouteCurrent("/admin/auth/register", "POST") == CallNext
    ensures RouteLegacy("/admin/auth/register", "POST") == CallNext
    ensures RouteCurrent("/admin/login", "GET") == CallNext
    ensures RouteLegacy("/admin/login", "GET") == CallNext
  {
  }

  // ---------------------------------------------------------------------
  // ensureDefaultRoleMapping

  const SuperAdminCode := "strapi-super-admin"
  const DefaultKey := "SUPER_ADMIN"

  /** The first role with the super-admin code, as `findOne` returns it. */
  function FindRoleByCode(roles: seq<AdminRole>, code: string): (r: Option<AdminRole>)
    ensures r.Some? ==> r.value in roles && r.value.code == code
    ensures r.None? <==> forall i :: 0 <= i < |roles| ==> roles[i].code != code
  {
    if |roles| == 0 then None
    else if roles[0].code == code then Some(roles[0])
    else FindRoleByCode(roles[1..], code)
  }

  /** The rows after a seeder run with storage available: with a super-admin
      role and no `SUPER_ADMIN` row, that row is appended; otherwise the rows
      are left as they are. A failed role lookup is swallowed. */
  function SeededRows(rows: seq<Row>, roles: Result<seq<AdminRole>, JsError>): seq<Row>
  {
    if roles.Err? then rows
    else
      var superAdmin := FindRoleByCode(roles.value, SuperAdminCode);
      if superAdmin.None? || HasKey(rows, DefaultKey) then rows
      else rows + [Row(DefaultKey, superAdmin.value.id)]
  }

  /** The seeder on the tables; every error is logged and swallowed. */
  method EnsureDefaultRoleMapping(roles: Result<seq<AdminRole>, JsError>, table: MappingTable)
    requires table.Valid()
    modifies table`rows
    ensures table.Valid()
    ensures table.fault.Some? ==> table.rows == old(table.rows)
    ensures table.fault.None? ==> table.rows == SeededRows(old(table.rows), roles)
  {
    if roles.Err? {
      return;
    }
    var superAdminRole := FindRoleByCode(roles.value, SuperAdminCode);
    if superAdminRole.None? {
      return;
    }
    var defaultMapping := Row(DefaultKey, superAdminRole.value.id);
    var existing := table.FindByKey(DefaultKey);
    if existing.Err? {
      return;
    }
    if existing.value.None? {
      assert SchemaValid(table.rows + [defaultMapping]) by {
        var rows := table.rows + [defaultMapping];
        forall i, j | 0 <= i < j < |rows| ensures rows[i].keycloakRole != rows[j].keycloakRole {
          if j == |rows| - 1 {
            assert rows[i] == table.rows[i];
          }
        }
      }
      var _ := table.Create(defaultMapping);
    }
  }

  /** Number of rows keyed by `k`. */
  function CountKey(rows: seq<Row>, k: string): nat
  {
    if |rows| == 0 then 0 else (if rows[0].keycloakRole == k then 1 else 0) + CountKey(rows[1..], k)
  }

  lemma {:induction false} CountKeyValid(rows: seq<Row>, k: string)
    requires SchemaValid(rows)
    ensures CountKey(rows, k) <= 1
    ensures CountKey(rows, k) == 1 <==> HasKey(rows, k)
  {
    if |rows| > 0 {
      assert SchemaValid(rows[1..]);
      CountKeyValid(rows[1..], k);
      if rows[0].keycloakRole == k {
        assert !HasKey(rows[1..], k);
      }
      assert HasKey(rows, k) <==> rows[0].keycloakRole == k || HasKey(rows[1..], k) by {
        if HasKey(rows, k) && rows[0].keycloakRole != k {
          var i :| 0 <= i < |rows| && rows[i].keycloakRole == k;
          assert rows[1..][i - 1].keycloakRole == k;
        }
        if HasKey(rows[1..], k) {
          var i :| 0 <= i < |rows[1..]| && rows[1..][i].keycloakRole == k;
          assert rows[i + 1].keycloakRole == k;
        }
      }
    }
  }

  /** Seeding twice leaves what seeding once leaves. */
  lemma SeedingIdempotent(rows: seq<Row>, roles: Result<seq<AdminRole>, JsError>)
    ensures SeededRows(SeededRows(rows, roles), roles) == SeededRows(rows, roles)
  {
    var s := SeededRows(rows, roles);
    if s != rows {
      assert s[|s| - 1].keycloakRole == DefaultKey;
    }
  }

  /** With a super-admin role present, a seeded valid table holds exactly one
      `SUPER_ADMIN` row; without one, nothing is written. */
  lemma SeedingLeavesOneDefaultRow(rows: seq<Row>, roles: seq<AdminRole>)
    requires SchemaValid(rows)
    ensures SchemaValid(SeededRows(rows, Ok(roles)))
    ensures FindRoleByCode(roles, SuperAdminCode).Some? ==> CountKey(SeededRows(rows, Ok(roles)), DefaultKey) == 1
    ensures FindRoleByCode(roles, SuperAdminCode).None? ==> SeededRows(rows, Ok(roles)) == rows
  {
    var s := SeededRows(rows, Ok(roles));
    if s != rows {
      forall i, j | 0 <= i < j < |s| ensures s[i].keycloakRole != s[j].keycloakRole {
        if j == |s| - 1 {
          assert s[i] == rows[i];
        }
      }
      assert s[|s| - 1].keycloakRole == DefaultKey;
      assert HasKey(s, DefaultKey);
    }
    CountKeyValid(s, DefaultKey);
  }

  /** An existing `SUPER_ADMIN` row is kept as it is, even when it maps to a
      role other than the super-admin role. */
  lemma ExistingDefaultRowNotCorrected(rows: seq<Row>, roles: Result<seq<AdminRole>, JsError>, i: nat)
    requires i < |rows| && rows[i].keycloakRole == DefaultKey
    ensures SeededRows(rows, roles) == rows
  {
  }

  // ---------------------------------------------------------------------
  // Bootstrap order

  datatype Step = RegisterPermissions | SeedDefaultMapping | InstallRouteOverride

  /** Current bootstrap: permission registration (its failure is swallowed),
      then the seeder, then the route override. */
  method BootstrapCurrent(registration: Outcome<JsError>, roles: Result<seq<AdminRole>, JsError>, table: MappingTable)
    returns (steps: seq<Step>)
    requires table.Valid()
    modifies table`rows
    ensures table.Valid()
    ensures steps == [RegisterPermissions, SeedDefaultMapping, InstallRouteOverride]
    ensures table.fault.None? ==> table.rows == SeededRows(old(table.rows), roles)
    ensures table.fault.Some? ==> table.rows == old(table.rows)
  {
    steps := [RegisterPermissions];
    // a failed registration is logged and start-up continues
    EnsureDefaultRoleMapping(roles, table);
    steps := steps + [SeedDefaultMapping];
    steps := steps + [InstallRouteOverride];
  }

  /** Older bootstrap: only the route override. It registers no permissions,
      does not seed, and leaves the mapping table exactly as it was, whatever
      the table held and whether storage is available. */
  method BootstrapLegacy(table: MappingTable) returns (steps: seq<Step>)
    ensures RegisterPermissions !in steps && SeedDefaultMapping !in steps
    ensures InstallRouteOverride in steps
    ensures table.rows == old(table.rows) && table.fault == old(table.fault)
  {
    steps := [InstallRouteOverride];
  }
}
