/** The admin controller: realm roles for the settings page (with the
    exclusion filter), the mapping rows folded into an object, the save of
    a mapping object, and the older OAuth callback's code check. */
module AuthController {
  import opened Common
  import opened Host
  import opened RoleMappingService
  import opened RoleResolution

  // ---------------------------------------------------------------------
  // getRoles

  /** `roles.filter(role => !excluded.includes(role.name))` */
  function ExcludeRoles(roles: seq<RealmRole>, excluded: seq<string>): (kept: seq<RealmRole>)
    ensures |kept| <= |roles|
    ensures forall r :: r in kept <==> r in roles && r.name !in excluded
  {
    if |roles| == 0 then []
    else ExcludeRoles(roles[..|roles| - 1], excluded)
         + (if roles[|roles| - 1].name in excluded then [] else [roles[|roles| - 1]])
  }

  /** The filter keeps the relative order: it distributes over concatenation. */
  lemma {:induction false} ExcludeRolesAppend(a: seq<RealmRole>, b: seq<RealmRole>, excluded: seq<string>)
    ensures ExcludeRoles(a + b, excluded) == ExcludeRoles(a, excluded) + ExcludeRoles(b, excluded)
    decreases |b|
  {
    if |b| == 0 {
      assert a + b == a;
    } else {
      var b' := b[..|b| - 1];
      assert (a + b)[..|a + b| - 1] == a + b';
      assert (a + b)[|a + b| - 1] == b[|b| - 1];
      ExcludeRolesAppend(a, b', excluded);
    }
  }

  /** With nothing excluded every role is kept, in order. */
  lemma {:induction false} ExcludeNothingKeepsAll(roles: seq<RealmRole>)
    ensures ExcludeRoles(roles, []) == roles
  {
    if |roles| > 0 {
      var init, last := roles[..|roles| - 1], roles[|roles| - 1];
      ExcludeNothingKeepsAll(init);
      assert last.name !in [];
      assert ExcludeRoles(roles, []) == init + [last];
      assert roles == init + [last];
    }
  }

  /** The body `{ keycloakRoles, strapiRoles }`. */
  datatype RolesBody = RolesBody(keycloakRoles: seq<RealmRole>, strapiRoles: seq<AdminRole>)

  const RolesFailedMessage := "Failed to fetch Keycloak roles"

  /** Current `getRoles`: admin token, realm roles, exclusion filter, local
      roles; any failure gives one bad request. */
  function GetRolesCurrent(adminToken: Result<string, JsError>, realmRoles: Result<seq<RealmRole>, JsError>,
                           strapiRoles: Result<seq<AdminRole>, JsError>, excluded: seq<string>): (reply: Reply<RolesBody>)
    ensures reply.BadRequest? <==> adminToken.Err? || realmRoles.Err? || strapiRoles.Err?
    ensures reply.BadRequest? ==> reply.message == RolesFailedMessage
    ensures reply.Send? ==> reply.body.strapiRoles == strapiRoles.value
    ensures reply.Send? ==> forall r :: r in reply.body.keycloakRoles <==> r in realmRoles.value && r.name !in excluded
  {
    if adminToken.Err? || realmRoles.Err? then BadRequest(RolesFailedMessage)
    else
      var keycloakRoles := ExcludeRoles(realmRoles.value, excluded);
      if strapiRoles.Err? then BadRequest(RolesFailedMessage)
      else Send(RolesBody(keycloakRoles, strapiRoles.value))
  }

  /** Older `getRoles`: the token response's `access_token` must be truthy;
      the realm roles are returned unfiltered. */
  function GetRolesLegacy(tokenResponse: Result<Option<string>, JsError>, realmRoles: Result<seq<RealmRole>, JsError>,
                          strapiRoles: Result<seq<AdminRole>, JsError>): (reply: Reply<RolesBody>)
    ensures tokenResponse.Ok? && !Truthy(tokenResponse.value) ==> reply == BadRequest(RolesFailedMessage)
    ensures reply.Send? <==> tokenResponse.Ok? && Truthy(tokenResponse.value) && realmRoles.Ok? && strapiRoles.Ok?
    ensures reply.Send? ==> reply.body == RolesBody(realmRoles.value, strapiRoles.value)
    ensures reply.BadRequest? ==> reply.message == RolesFailedMessage
  {
    if tokenResponse.Err? || !Truthy(tokenResponse.value) then BadRequest(RolesFailedMessage)
    else if realmRoles.Err? || strapiRoles.Err? then BadRequest(RolesFailedMessage)
    else Send(RolesBody(realmRoles.value, strapiRoles.value))
  }

  /** With an empty exclusion list the current controller answers exactly
      what the older one answers for a good token. */
  lemma EmptyExclusionMatchesLegacy(token: string, realmRoles: Result<seq<RealmRole>, JsError>,
                                    strapiRoles: Result<seq<AdminRole>, JsError>)
    requires token != ""
    ensures GetRolesCurrent(Ok(token), realmRoles, strapiRoles, []) == GetRolesLegacy(Ok(Some(token)), realmRoles, strapiRoles)
  {
    if realmRoles.Ok? {
      ExcludeNothingKeepsAll(realmRoles.value);
    }
  }

  // ---------------------------------------------------------------------
  // getRoleMappings

  /** `rows.reduce((acc, m) => { acc[m.keycloakRole] = m.strapiRole; return acc }, {})` */
  function FormatMappings(rows: seq<Row>): (m: map<string, int>)
    ensures forall k :: k in m <==> HasKey(rows, k)
  {
    if |rows| == 0 then map[]
    else
      var init := rows[..|rows| - 1];
      var m := FormatMappings(init)[rows[|rows| - 1].keycloakRole := rows[|rows| - 1].strapiRole];
      assert forall k :: HasKey(init, k) ==> HasKey(rows, k) by {
        forall k | HasKey(init, k) ensures HasKey(rows, k) {
          var i :| 0 <= i < |init| && init[i].keycloakRole == k;
          assert rows[i] == init[i];
        }
      }
      m
  }

  /** For a repeated key the later row wins: the value is that of the last
      row with the key. */
  lemma {:induction false} FormatMappingsLastWins(rows: seq<Row>, i: nat)
    requires i < |rows|
    requires forall j :: i < j < |rows| ==> rows[j].keycloakRole != rows[i].keycloakRole
    ensures FormatMappings(rows)[rows[i].keycloakRole] == rows[i].strapiRole
  {
    if i < |rows| - 1 {
      var init := rows[..|rows| - 1];
      FormatMappingsLastWins(init, i);
    }
  }

  lemma {:induction false} FormatMappingsSize(rows: seq<Row>)
    requires forall i, j :: 0 <= i < j < |rows| ==> rows[i].keycloakRole != rows[j].keycloakRole
    ensures |FormatMappings(rows)| == |rows|
  {
    if |rows| > 0 {
      var init := rows[..|rows| - 1];
      FormatMappingsSize(init);
      assert !HasKey(init, rows[|rows| - 1].keycloakRole);
    }
  }

  /** Rows with unique keys give an object with one key per row. */
  lemma UniqueKeysOneEntryPerRow(rows: seq<Row>)
    requires SchemaValid(rows)
    ensures |FormatMappings(rows)| == |rows|
    ensures forall i :: 0 <= i < |rows| ==> FormatMappings(rows)[rows[i].keycloakRole] == rows[i].strapiRole
  {
    FormatMappingsSize(rows);
    forall i | 0 <= i < |rows| ensures FormatMappings(rows)[rows[i].keycloakRole] == rows[i].strapiRole {
      FormatMappingsLastWins(rows, i);
    }
  }

  lemma RowsOfKeys(e: Entries, k: string)
    ensures HasKey(RowsOf(e), k) <==> exists i :: 0 <= i < |e| && e[i].0 == k
  {
    var rows := RowsOf(e);
    if HasKey(rows, k) {
      var i :| 0 <= i < |rows| && rows[i].keycloakRole == k;
      assert e[i].0 == k;
    }
    if exists i :: 0 <= i < |e| && e[i].0 == k {
      var i :| 0 <= i < |e| && e[i].0 == k;
      assert rows[i].keycloakRole == k;
    }
  }

  /** Saving an object and folding the rows read back gives the same object:
      the same keys, each with its saved value. */
  lemma SaveThenFormatRoundTrip(e: Entries)
    requires DistinctKeys(e) && SaveCompletes(Some(e))
    ensures var m := FormatMappings(SavedRows(Some(e)));
      |m| == |e| && (forall k :: k in m <==> exists i :: 0 <= i < |e| && e[i].0 == k) &&
      forall i :: 0 <= i < |e| ==> m[e[i].0] == e[i].1
  {
    SaveReplacesTable(e);
    var rows := RowsOf(e);
    assert SavedRows(Some(e)) == rows;
    UniqueKeysOneEntryPerRow(rows);
    forall k ensures k in FormatMappings(rows) <==> exists i :: 0 <= i < |e| && e[i].0 == k {
      RowsOfKeys(e, k);
    }
    assert forall i :: 0 <= i < |e| ==> rows[i] == Row(e[i].0, e[i].1);
  }

  const MappingsFailedMessage := "Failed to retrieve role mappings"

  /** `getRoleMappings`: read every row, fold into an object. */
  method GetRoleMappings(table: MappingTable) returns (reply: Reply<map<string, int>>)
    ensures table.fault.Some? ==> reply == BadRequest(MappingsFailedMessage)
    ensures table.fault.None? ==> reply == Send(FormatMappings(table.rows))
  {
    var mappings := GetMappingsCurrent(table);
    if mappings.Err? {
      return BadRequest(MappingsFailedMessage);
    }
    var rows := mappings.value;
    var acc: map<string, int> := map[];
    var i := 0;
    while i < |rows|
      invariant 0 <= i <= |rows|
      invariant acc == FormatMappings(rows[..i])
    {
      assert rows[..i + 1][..i] == rows[..i];
      acc := acc[rows[i].keycloakRole := rows[i].strapiRole];
      i := i + 1;
    }
    assert rows[..i] == rows;
    return Send(acc);
  }

  // ---------------------------------------------------------------------
  // saveRoleMappings

  /** The request body `{ mappings }`; `None` is an `undefined` value. */
  datatype SaveBody = SaveBody(mappings: Option<Entries>)

  const SavedMessage := "Mappings saved successfully."
  const SaveFailedReply := "Failed to save role mappings"

  /** Current `saveRoleMappings`: forwards `body.mappings` to the current
      service. An absent body throws on destructuring, before any write. */
  method SaveRoleMappingsCurrent(table: MappingTable, body: Option<SaveBody>) returns (reply: Reply<string>)
    requires table.Valid()
    requires body.Some? && body.value.mappings.Some? ==> DistinctKeys(body.value.mappings.value)
    modifies table`rows
    ensures table.Valid()
    ensures body.None? ==> reply == BadRequest(SaveFailedReply) && table.rows == old(table.rows)
    ensures body.Some? && old(table.fault).None? ==> table.rows == SavedRows(body.value.mappings)
    ensures body.Some? && old(table.fault).Some? ==> table.rows == old(table.rows)
    ensures reply == Send(SavedMessage) <==> body.Some? && old(table.fault).None? && SaveCompletes(body.value.mappings)
    ensures reply.BadRequest? ==> reply.message == SaveFailedReply
  {
    if body.None? {
      return BadRequest(SaveFailedReply);
    }
    var saved := SaveMappingsCurrent(table, body.value.mappings);
    if saved.Fail? {
      return BadRequest(SaveFailedReply);
    }
    return Send(SavedMessage);
  }

  const LegacySavedMessage := "Mappings saved"
  const LegacySaveFailedReply := "Failed to save mappings"

  /** Older `saveRoleMappings`: forwards `body.mappings` to the older service. */
  method SaveRoleMappingsLegacy(table: MappingTable, body: Option<SaveBody>) returns (reply: Reply<string>)
    requires table.Valid()
    requires body.Some? && body.value.mappings.Some? ==> DistinctKeys(body.value.mappings.value)
    modifies table`rows
    ensures table.Valid()
    ensures body.None? ==> reply == BadRequest(LegacySaveFailedReply) && table.rows == old(table.rows)
    ensures body.Some? && old(table.fault).None? ==> table.rows == SavedRows(body.value.mappings)
    ensures body.Some? && old(table.fault).Some? ==> table.rows == old(table.rows)
    ensures reply == Send(LegacySavedMessage) <==> body.Some? && old(table.fault).None? && SaveCompletes(body.value.mappings)
    ensures reply.BadRequest? ==> reply.message == LegacySaveFailedReply
  {
    if body.None? {
      return BadRequest(LegacySaveFailedReply);
    }
    var saved := SaveMappingsLegacy(table, body.value.mappings);
    if saved.Fail? {
      return BadRequest(LegacySaveFailedReply);
    }
    return Send(LegacySavedMessage);
  }

  // ---------------------------------------------------------------------
  // keycloakCallback (older controller)

  datatype CallbackStep = MissingCode(message: string) | Authenticate(code: string)

  /** Only the missing-`code` check of the callback; the rest is passport glue. */
  function KeycloakCallback(code: Option<string>): (step: CallbackStep)
    ensures step.MissingCode? <==> !Truthy(code)
    ensures step.MissingCode? ==> step.message == "Missing authorization code"
    ensures step.Authenticate? ==> Some(step.code) == code
  {
    if !Truthy(code) then MissingCode("Missing authorization code") else Authenticate(code.value)
  }
}
