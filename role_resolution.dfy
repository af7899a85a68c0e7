/** Role resolution of `findOrCreate`: the user's realm role names are turned
    into local role ids through the mapping rows, collected in a JavaScript
    `Set` (distinct ids, first-insertion order), with a default id when
    nothing matched. Also the realm-role fetch of the user. */
module RoleResolution {
  import opened Common
  import opened RoleMappingService

  // ---------------------------------------------------------------------
  // Insertion-ordered sets

  predicate NoDuplicates(s: seq<int>)
  {
    forall i, j :: 0 <= i < j < |s| ==> s[i] != s[j]
  }

  /** `set.add(x)` on a set listed in insertion order. */
  function SetAdd(s: seq<int>, x: int): seq<int>
  {
    if x in s then s else s + [x]
  }

  /** `Array.from` of a fresh `Set` after adding `xs` one by one. */
  function Collect(xs: seq<int>): (r: seq<int>)
    ensures NoDuplicates(r)
    ensures forall x :: x in r <==> x in xs
  {
    if |xs| == 0 then [] else SetAdd(Collect(xs[..|xs| - 1]), xs[|xs| - 1])
  }

  /** Position of the first occurrence of `x` in `xs`. */
  function IndexOf(xs: seq<int>, x: int): (k: nat)
    requires x in xs
    ensures k < |xs| && xs[k] == x && x !in xs[..k]
  {
    if xs[0] == x then 0 else 1 + IndexOf(xs[1..], x)
  }

  lemma {:induction false} IndexOfSnoc(xs: seq<int>, x: int, y: int)
    requires y in xs
    ensures IndexOf(xs + [x], y) == IndexOf(xs, y)
  {
    if xs[0] != y {
      assert (xs + [x])[1..] == xs[1..] + [x];
      IndexOfSnoc(xs[1..], x, y);
    }
  }

  lemma CollectSnoc(xs: seq<int>, x: int)
    ensures Collect(xs + [x]) == SetAdd(Collect(xs), x)
  {
    assert (xs + [x])[..|xs|] == xs;
  }

  /** `Collect` lists the distinct values in the order of their first
      occurrence; with `NoDuplicates` and equal membership this fixes it. */
  lemma {:induction false} CollectFirstSeenOrder(xs: seq<int>)
    ensures forall i, j :: 0 <= i < j < |Collect(xs)| ==>
              IndexOf(xs, Collect(xs)[i]) < IndexOf(xs, Collect(xs)[j])
  {
    if |xs| > 0 {
      var init, last := xs[..|xs| - 1], xs[|xs| - 1];
      assert xs == init + [last];
      CollectFirstSeenOrder(init);
      var r := Collect(init);
      forall y | y in r ensures IndexOf(xs, y) == IndexOf(init, y) {
        IndexOfSnoc(init, last, y);
      }
      if last !in r {
        assert IndexOf(xs, last) == |init|;
      }
    }
  }

  // ---------------------------------------------------------------------
  // Matching role names against mapping rows

  /** `rows.find(m => m.keycloakRole === name)?.strapiRole` */
  function FirstMatch(rows: seq<Row>, name: string): (r: Option<int>)
    ensures r.Some? <==> HasKey(rows, name)
    ensures r.Some? ==> Row(name, r.value) in rows
  {
    if |rows| == 0 then None
    else if rows[0].keycloakRole == name then Some(rows[0].strapiRole)
    else
      var r := FirstMatch(rows[1..], name);
      assert HasKey(rows[1..], name) ==> HasKey(rows, name) by {
        if HasKey(rows[1..], name) {
          var i :| 0 <= i < |rows[1..]| && rows[1..][i].keycloakRole == name;
          assert rows[i + 1] == rows[1..][i];
        }
      }
      assert HasKey(rows, name) ==> HasKey(rows[1..], name) by {
        if HasKey(rows, name) {
          var i :| 0 <= i < |rows| && rows[i].keycloakRole == name;
          assert rows[1..][i - 1] == rows[i];
        }
      }
      r
  }

  /** The match `find` returns is the first row keyed by the name. */
  lemma {:induction false} FirstMatchIsFirst(rows: seq<Row>, name: string)
    requires HasKey(rows, name)
    ensures exists i :: 0 <= i < |rows| && rows[i] == Row(name, FirstMatch(rows, name).value) &&
                        forall j :: 0 <= j < i ==> rows[j].keycloakRole != name
  {
    if rows[0].keycloakRole == name {
      assert rows[0] == Row(name, FirstMatch(rows, name).value);
    } else {
      FirstMatchIsFirst(rows[1..], name);
      var i :| 0 <= i < |rows[1..]| && rows[1..][i] == Row(name, FirstMatch(rows[1..], name).value) &&
               forall j :: 0 <= j < i ==> rows[1..][j].keycloakRole != name;
      assert rows[i + 1] == rows[1..][i];
      assert forall j :: 0 <= j < i + 1 ==> rows[j].keycloakRole != name by {
        forall j | 0 <= j < i + 1 ensures rows[j].keycloakRole != name {
          if j > 0 {
            assert rows[j] == rows[1..][j - 1];
          }
        }
      }
    }
  }

  function OptionList(o: Option<int>): seq<int>
  {
    if o.Some? then [o.value] else []
  }

  /** The ids added to the set by the current code: the first match of each
      held role, in role order. */
  function MatchedFirst(names: seq<string>, rows: seq<Row>): seq<int>
  {
    if |names| == 0 then []
    else MatchedFirst(names[..|names| - 1], rows) + OptionList(FirstMatch(rows, names[|names| - 1]))
  }

  /** The `strapiRole` of every row whose key is `name`, in row order. */
  function AllMatches(rows: seq<Row>, name: string): seq<int>
  {
    if |rows| == 0 then []
    else AllMatches(rows[..|rows| - 1], name)
         + (if rows[|rows| - 1].keycloakRole == name then [rows[|rows| - 1].strapiRole] else [])
  }

  /** The ids added to the set by the older code: every match of each held
      role, roles in order and rows in order within a role. */
  function MatchedAll(names: seq<string>, rows: seq<Row>): seq<int>
  {
    if |names| == 0 then []
    else MatchedAll(names[..|names| - 1], rows) + AllMatches(rows, names[|names| - 1])
  }

  /** The distinct ids the current code applies. */
  function AppliedCurrent(names: seq<string>, rows: seq<Row>): seq<int>
  {
    Collect(MatchedFirst(names, rows))
  }

  /** The distinct ids the older code applies. */
  function AppliedLegacy(names: seq<string>, rows: seq<Row>): seq<int>
  {
    Collect(MatchedAll(names, rows))
  }

  /** `appliedRoles.size ? Array.from(appliedRoles) : [DEFAULT_ROLE_ID]` */
  function UserRoles(applied: seq<int>, defaultRoleId: int): seq<int>
  {
    if |applied| > 0 then applied else [defaultRoleId]
  }

  lemma {:induction false} MatchedFirstMembers(names: seq<string>, rows: seq<Row>, x: int)
    ensures x in MatchedFirst(names, rows) <==> exists k :: 0 <= k < |names| && FirstMatch(rows, names[k]) == Some(x)
  {
    if |names| > 0 {
      var init := names[..|names| - 1];
      MatchedFirstMembers(init, rows, x);
      assert forall k :: 0 <= k < |init| ==> init[k] == names[k];
    }
  }

  lemma {:induction false} AllMatchesMembers(rows: seq<Row>, name: string, x: int)
    ensures x in AllMatches(rows, name) <==> Row(name, x) in rows
  {
    if |rows| > 0 {
      var init := rows[..|rows| - 1];
      AllMatchesMembers(init, name, x);
      assert rows == init + [rows[|rows| - 1]];
    }
  }

  lemma {:induction false} MatchedAllMembers(names: seq<string>, rows: seq<Row>, x: int)
    ensures x in MatchedAll(names, rows) <==> exists k :: 0 <= k < |names| && Row(names[k], x) in rows
  {
    if |names| > 0 {
      var init := names[..|names| - 1];
      var last := names[|names| - 1];
      MatchedAllMembers(init, rows, x);
      AllMatchesMembers(rows, last, x);
      assert MatchedAll(names, rows) == MatchedAll(init, rows) + AllMatches(rows, last);
      if x in MatchedAll(names, rows) {
        if x in MatchedAll(init, rows) {
          var k :| 0 <= k < |init| && Row(init[k], x) in rows;
          assert names[k] == init[k];
        } else {
          assert Row(names[|names| - 1], x) in rows;
        }
      }
      if exists k :: 0 <= k < |names| && Row(names[k], x) in rows {
        var k :| 0 <= k < |names| && Row(names[k], x) in rows;
        if k < |init| {
          assert init[k] == names[k];
        }
      }
    }
  }

  /** The current code applies exactly the first-match ids of the held roles,
      each once. */
  lemma AppliedCurrentMeaning(names: seq<string>, rows: seq<Row>)
    ensures NoDuplicates(AppliedCurrent(names, rows))
    ensures forall x :: x in AppliedCurrent(names, rows) <==>
              exists k :: 0 <= k < |names| && FirstMatch(rows, names[k]) == Some(x)
  {
    forall x ensures x in AppliedCurrent(names, rows) <==>
              exists k :: 0 <= k < |names| && FirstMatch(rows, names[k]) == Some(x) {
      MatchedFirstMembers(names, rows, x);
    }
  }

  /** The older code applies the id of every row keyed by a held role, each once. */
  lemma AppliedLegacyMeaning(names: seq<string>, rows: seq<Row>)
    ensures NoDuplicates(AppliedLegacy(names, rows))
    ensures forall x :: x in AppliedLegacy(names, rows) <==>
              exists k :: 0 <= k < |names| && Row(names[k], x) in rows
  {
    forall x ensures x in AppliedLegacy(names, rows) <==>
              exists k :: 0 <= k < |names| && Row(names[k], x) in rows {
      MatchedAllMembers(names, rows, x);
    }
  }

  /** Appending a row changes the first match only when there was none. */
  lemma {:induction false} FirstMatchSnoc(rows: seq<Row>, last: Row, name: string)
    ensures FirstMatch(rows + [last], name) ==
              if FirstMatch(rows, name).Some? then FirstMatch(rows, name)
              else if last.keycloakRole == name then Some(last.strapiRole) else None
  {
    if |rows| > 0 {
      assert (rows + [last])[1..] == rows[1..] + [last];
      FirstMatchSnoc(rows[1..], last, name);
    }
  }

  /** With unique keys there is at most one row per role, so the first match
      is the only match. */
  lemma {:induction false} AllMatchesUnique(rows: seq<Row>, name: string)
    requires SchemaValid(rows)
    ensures AllMatches(rows, name) == OptionList(FirstMatch(rows, name))
  {
    if |rows| > 0 {
      var init, last := rows[..|rows| - 1], rows[|rows| - 1];
      assert rows == init + [last];
      assert SchemaValid(init);
      AllMatchesUnique(init, name);
      FirstMatchSnoc(init, last, name);
    }
  }

  /** On a schema-valid table the two resolution strategies give the same ids
      in the same order. */
  lemma {:induction false} StrategiesAgreeOnValidTable(names: seq<string>, rows: seq<Row>)
    requires SchemaValid(rows)
    ensures AppliedLegacy(names, rows) == AppliedCurrent(names, rows)
    ensures MatchedAll(names, rows) == MatchedFirst(names, rows)
  {
    if |names| > 0 {
      StrategiesAgreeOnValidTable(names[..|names| - 1], rows);
      AllMatchesUnique(rows, names[|names| - 1]);
    }
  }

  /** On rows with a repeated key, the older code applies the ids of both
      rows while the current one applies only the first. */
  lemma DuplicateKeyStrategiesDiffer()
    ensures AppliedCurrent(["EDITOR"], [Row("EDITOR", 3), Row("EDITOR", 4)]) == [3]
    ensures AppliedLegacy(["EDITOR"], [Row("EDITOR", 3), Row("EDITOR", 4)]) == [3, 4]
  {
    var rows := [Row("EDITOR", 3), Row("EDITOR", 4)];
    assert FirstMatch(rows, "EDITOR") == Some(3);
    assert MatchedFirst(["EDITOR"], rows) == MatchedFirst([], rows) + [3];
    assert rows[..1] == [Row("EDITOR", 3)];
    assert [Row("EDITOR", 3)][..0] == [];
    assert AllMatches(rows, "EDITOR") == [3, 4];
    assert MatchedAll(["EDITOR"], rows) == [3, 4];
    assert [3, 4][..1] == [3];
    assert [3][..0] == [];
    assert Collect([3]) == [3];
  }

  /** The role list written to the user is never empty, has no repeated id,
      and is `[defaultRoleId]` exactly when nothing was applied. */
  lemma UserRolesMeaning(applied: seq<int>, defaultRoleId: int)
    requires NoDuplicates(applied)
    ensures |UserRoles(applied, defaultRoleId)| >= 1
    ensures NoDuplicates(UserRoles(applied, defaultRoleId))
    ensures |applied| == 0 ==> UserRoles(applied, defaultRoleId) == [defaultRoleId]
    ensures forall x :: x in UserRoles(applied, defaultRoleId) ==> x in applied || (applied == [] && x == defaultRoleId)
    ensures |applied| > 0 ==> UserRoles(applied, defaultRoleId) == applied
  {
  }

  /** The mapping rows of the scenario below and the first match of each name. */
  lemma ScenarioMatches(rows: seq<Row>)
    requires rows == [Row("SUPER_ADMIN", 1), Row("EDITOR", 3)]
    ensures FirstMatch(rows, "EDITOR") == Some(3)
    ensures FirstMatch(rows, "offline_access") == None
    ensures FirstMatch(rows, "UNKNOWN") == None
  {
    var tail := rows[1..];
    assert tail == [Row("EDITOR", 3)] && tail[1..] == [];
    assert FirstMatch(tail, "EDITOR") == Some(3);
    assert FirstMatch(tail, "offline_access") == FirstMatch([], "offline_access");
    assert FirstMatch(tail, "UNKNOWN") == FirstMatch([], "UNKNOWN");
  }

  /** Scenario: a held role with a mapping row contributes its id; a held
      role without one contributes nothing, and the default id is used. */
  lemma ResolutionScenario()
    ensures UserRoles(AppliedCurrent(["EDITOR", "offline_access"], [Row("SUPER_ADMIN", 1), Row("EDITOR", 3)]), 5) == [3]
    ensures UserRoles(AppliedCurrent(["UNKNOWN"], [Row("SUPER_ADMIN", 1), Row("EDITOR", 3)]), 5) == [5]
  {
    var rows := [Row("SUPER_ADMIN", 1), Row("EDITOR", 3)];
    ScenarioMatches(rows);
    var names := ["EDITOR", "offline_access"];
    assert names[..1] == ["EDITOR"] && ["EDITOR"][..0] == [];
    assert MatchedFirst(["EDITOR"], rows) == MatchedFirst([], rows) + [3];
    assert MatchedFirst(names, rows) == MatchedFirst(["EDITOR"], rows) + [];
    assert ["UNKNOWN"][..0] == [];
    assert MatchedFirst(["UNKNOWN"], rows) == MatchedFirst([], rows) + [];
    assert [3][..0] == [];
    assert Collect([3]) == SetAdd(Collect([]), 3);
  }

  // ---------------------------------------------------------------------
  // The loops that fill `appliedRoles`

  /** One more held role adds its first match, if any, to the matched ids. */
  lemma MatchedFirstStep(names: seq<string>, rows: seq<Row>, i: nat)
    requires i < |names|
    ensures MatchedFirst(names[..i + 1], rows) == MatchedFirst(names[..i], rows) + OptionList(FirstMatch(rows, names[i]))
    ensures FirstMatch(rows, names[i]).None? ==> MatchedFirst(names[..i + 1], rows) == MatchedFirst(names[..i], rows)
  {
    assert names[..i + 1][..i] == names[..i];
    assert MatchedFirst(names[..i], rows) + [] == MatchedFirst(names[..i], rows);
  }

  /** Current loop: for each held role, add the `strapiRole` of the first
      row keyed by it. */
  method ApplyRolesCurrent(names: seq<string>, rows: seq<Row>) returns (applied: seq<int>)
    ensures applied == AppliedCurrent(names, rows)
  {
    applied := [];
    var i := 0;
    while i < |names|
      invariant 0 <= i <= |names|
      invariant applied == Collect(MatchedFirst(names[..i], rows))
    {
      var mapped := FirstMatch(rows, names[i]);
      MatchedFirstStep(names, rows, i);
      if mapped.Some? {
        CollectSnoc(MatchedFirst(names[..i], rows), mapped.value);
        applied := SetAdd(applied, mapped.value);
      }
      i := i + 1;
    }
    assert names[..i] == names;
  }

  /** One more row adds its id to the matches when its key is the name. */
  lemma AllMatchesStep(prefix: seq<int>, rows: seq<Row>, name: string, j: nat)
    requires j < |rows|
    ensures rows[j].keycloakRole == name ==>
              prefix + AllMatches(rows[..j + 1], name) == (prefix + AllMatches(rows[..j], name)) + [rows[j].strapiRole]
    ensures rows[j].keycloakRole != name ==>
              prefix + AllMatches(rows[..j + 1], name) == prefix + AllMatches(rows[..j], name)
  {
    assert rows[..j + 1][..j] == rows[..j];
  }

  /** One more held role adds all its matches to the matched ids. */
  lemma MatchedAllStep(names: seq<string>, rows: seq<Row>, i: nat)
    requires i < |names|
    ensures MatchedAll(names[..i + 1], rows) == MatchedAll(names[..i], rows) + AllMatches(rows[..|rows|], names[i])
  {
    assert rows[..|rows|] == rows;
    assert names[..i + 1][..i] == names[..i];
  }

  /** Older loop: for each held role, walk every row and add the
      `strapiRole` of each row keyed by it. */
  method ApplyRolesLegacy(names: seq<string>, rows: seq<Row>) returns (applied: seq<int>)
    ensures applied == AppliedLegacy(names, rows)
  {
    applied := [];
    var i := 0;
    while i < |names|
      invariant 0 <= i <= |names|
      invariant applied == Collect(MatchedAll(names[..i], rows))
    {
      var j := 0;
      assert rows[..0] == [] && MatchedAll(names[..i], rows) + [] == MatchedAll(names[..i], rows);
      while j < |rows|
        invariant 0 <= j <= |rows|
        invariant applied == Collect(MatchedAll(names[..i], rows) + AllMatches(rows[..j], names[i]))
      {
        AllMatchesStep(MatchedAll(names[..i], rows), rows, names[i], j);
        if rows[j].keycloakRole == names[i] {
          CollectSnoc(MatchedAll(names[..i], rows) + AllMatches(rows[..j], names[i]), rows[j].strapiRole);
          applied := SetAdd(applied, rows[j].strapiRole);
        }
        j := j + 1;
      }
      MatchedAllStep(names, rows, i);
      i := i + 1;
    }
    assert names[..i] == names;
  }

  // ---------------------------------------------------------------------
  // Fetching the user's realm roles

  /** An element of the realm role-mappings response. */
  datatype RealmRole = RealmRole(id: string, name: string)

  /** The outcomes of the two requests the fetch makes: the admin token and
      the user's realm role-mappings. */
  datatype RoleFetch = RoleFetch(adminToken: Result<string, JsError>, realmRoles: Result<seq<RealmRole>, JsError>)

  /** `data.map(role => role.name)` */
  function RoleNames(roles: seq<RealmRole>): seq<string>
  {
    seq(|roles|, i requires 0 <= i < |roles| => roles[i].name)
  }

  const MissingSubMessage := "\U{274C} Keycloak user ID is missing!"
  const FetchFailedMessage := "Failed to fetch Keycloak user roles."

  /** Current `fetchKeycloakUserRoles`: a falsy `sub` throws before any
      request; any failure of the requests becomes one generic error. */
  function FetchUserRolesCurrent(sub: Option<string>, fetch: RoleFetch): Result<seq<string>, JsError>
  {
    if !Truthy(sub) then Err(Error(MissingSubMessage))
    else if fetch.adminToken.Err? || fetch.realmRoles.Err? then Err(Error(FetchFailedMessage))
    else Ok(RoleNames(fetch.realmRoles.value))
  }

  /** Older `fetchKeycloakUserRoles`: the same check, request errors propagate. */
  function FetchUserRolesLegacy(sub: Option<string>, fetch: RoleFetch): Result<seq<string>, JsError>
  {
    if !Truthy(sub) then Err(Error(MissingSubMessage))
    else if fetch.adminToken.Err? then Err(fetch.adminToken.error)
    else if fetch.realmRoles.Err? then Err(fetch.realmRoles.error)
    else Ok(RoleNames(fetch.realmRoles.value))
  }

  /** A missing or empty `sub` fails with the same error whatever the requests
      would have returned (none is made); otherwise the current fetch succeeds
      exactly when both requests do, with the role names in response order. */
  lemma FetchCurrentMeaning(sub: Option<string>, fetch: RoleFetch, other: RoleFetch)
    ensures !Truthy(sub) ==> FetchUserRolesCurrent(sub, fetch) == FetchUserRolesCurrent(sub, other) == Err(Error(MissingSubMessage))
    ensures Truthy(sub) ==> (FetchUserRolesCurrent(sub, fetch).Ok? <==> fetch.adminToken.Ok? && fetch.realmRoles.Ok?)
    ensures FetchUserRolesCurrent(sub, fetch).Err? ==>
              FetchUserRolesCurrent(sub, fetch).error in {Error(MissingSubMessage), Error(FetchFailedMessage)}
    ensures FetchUserRolesCurrent(sub, fetch).Ok? ==>
              var names := FetchUserRolesCurrent(sub, fetch).value;
              |names| == |fetch.realmRoles.value| &&
              forall i :: 0 <= i < |names| ==> names[i] == fetch.realmRoles.value[i].name
  {
  }

  /** The older fetch succeeds in the same cases with the same names; it only
      differs in the error it throws. */
  lemma FetchLegacyMeaning(sub: Option<string>, fetch: RoleFetch)
    ensures FetchUserRolesLegacy(sub, fetch).Ok? <==> FetchUserRolesCurrent(sub, fetch).Ok?
    ensures FetchUserRolesLegacy(sub, fetch).Ok? ==> FetchUserRolesLegacy(sub, fetch) == FetchUserRolesCurrent(sub, fetch)
    ensures !Truthy(sub) ==> FetchUserRolesLegacy(sub, fetch) == Err(Error(MissingSubMessage))
    ensures Truthy(sub) && fetch.adminToken.Err? ==> FetchUserRolesLegacy(sub, fetch) == Err(fetch.adminToken.error)
    ensures Truthy(sub) && fetch.adminToken.Ok? && fetch.realmRoles.Err? ==>
              FetchUserRolesLegacy(sub, fetch) == Err(fetch.realmRoles.error)
  {
  }

  /** The role list `findOrCreate` writes: a caught fetch failure degrades to
      the default role. */
  function ResolvedRolesCurrent(fetched: Result<seq<string>, JsError>, rows: seq<Row>, defaultRoleId: int): seq<int>
  {
    UserRoles(if fetched.Ok? then AppliedCurrent(fetched.value, rows) else [], defaultRoleId)
  }

  function ResolvedRolesLegacy(fetched: Result<seq<string>, JsError>, rows: seq<Row>, defaultRole: int): seq<int>
  {
    UserRoles(if fetched.Ok? then AppliedLegacy(fetched.value, rows) else [], defaultRole)
  }

  /** Any failed fetch (a missing `sub`, a failed admin-token request or a
      failed role request) yields exactly the default role in both versions;
      a successful one yields the applied ids themselves when there are any.
      The list is never empty and never repeats an id. */
  lemma ResolvedRolesMeaning(sub: Option<string>, fetch: RoleFetch, rows: seq<Row>, defaultRoleId: int)
    ensures var r := ResolvedRolesCurrent(FetchUserRolesCurrent(sub, fetch), rows, defaultRoleId);
      |r| >= 1 && NoDuplicates(r)
    ensures var r := ResolvedRolesLegacy(FetchUserRolesLegacy(sub, fetch), rows, defaultRoleId);
      |r| >= 1 && NoDuplicates(r)
    ensures FetchUserRolesCurrent(sub, fetch).Err? <==> !Truthy(sub) || fetch.adminToken.Err? || fetch.realmRoles.Err?
    ensures FetchUserRolesLegacy(sub, fetch).Err? <==> !Truthy(sub) || fetch.adminToken.Err? || fetch.realmRoles.Err?
    ensures FetchUserRolesCurrent(sub, fetch).Err? ==>
              ResolvedRolesCurrent(FetchUserRolesCurrent(sub, fetch), rows, defaultRoleId) == [defaultRoleId]
    ensures FetchUserRolesLegacy(sub, fetch).Err? ==>
              ResolvedRolesLegacy(FetchUserRolesLegacy(sub, fetch), rows, defaultRoleId) == [defaultRoleId]
    ensures FetchUserRolesCurrent(sub, fetch).Ok? && |AppliedCurrent(FetchUserRolesCurrent(sub, fetch).value, rows)| > 0 ==>
              ResolvedRolesCurrent(FetchUserRolesCurrent(sub, fetch), rows, defaultRoleId)
              == AppliedCurrent(FetchUserRolesCurrent(sub, fetch).value, rows)
    ensures FetchUserRolesLegacy(sub, fetch).Ok? && |AppliedLegacy(FetchUserRolesLegacy(sub, fetch).value, rows)| > 0 ==>
              ResolvedRolesLegacy(FetchUserRolesLegacy(sub, fetch), rows, defaultRoleId)
              == AppliedLegacy(FetchUserRolesLegacy(sub, fetch).value, rows)
  {
  }
}
