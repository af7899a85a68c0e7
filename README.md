# Keycloak single sign-on bridge for the Strapi admin panel — a Dafny model

This project models the core of a Strapi plugin that replaces the admin
panel's own login with the Keycloak identity provider and keeps local admin
users in step with their Keycloak roles. Most components exist in two
versions, and the model keeps both: the current sources (`server/src/…`)
and the older ones (`server/…`). The bundled build `dist/server/index.mjs` is
cited where its services, controllers, bootstrap and gate are the ones
modelled; its login differs from both sources and is left out.

The modules:

- **Common** (`common.dfy`) holds the shared JavaScript value semantics.
  - Optional values and results.
  - Thrown errors with optional `status`, `name`, `message` and `details`.
  - Truthiness, `|| ''`, template interpolation of `undefined`, and `String.prototype.includes`.
- **Host** (`host.dfy`) holds the host framework's entities.
  - Admin roles, permissions and admin users.
  - The session with its two user slots.
  - Controller replies.
  - The two forms in which a read returns a user's roles: bare ids, or populated role objects.
- **RoleMappingService** (`role_mapping.dfy`) is the role-mapping table.
  - It is a class over its rows. The schema (key length 3–100, unique key) is its invariant.
  - A storage fault is a field of the table.
  - `saveMappings` deletes every row and then inserts the entries one by one, with no transaction. It exists in the current, the older and the bundled (`createMany`) form.
  - `getMappings` reads all rows.
- **RoleResolution** (`role_resolution.dfy`) turns the user's Keycloak realm-role names into local role ids.
  - The current version takes the first mapping row per name; the older one takes every matching row.
  - Ids are collected into an insertion-ordered set.
  - With no match, or when the fetch fails, the result falls back to the default role.
  - It also models the role fetch with its missing-`sub` check.
- **AdminUserService** (`admin_users.dfy`) models `findOrCreate`.
  - It is specified by functions giving the value returned and the writes made to the user table.
  - Methods on a `UserTable` class implement it.
- **AuthController** (`auth_controller.dfy`) models `getRoles`, `getRoleMappings`, `saveRoleMappings` and the callback's missing-code check.
  - `getRoles` covers the exclusion filter and the older empty-token check.
  - `getRoleMappings` is the rows-to-object fold, in which the last row wins.
- **Login** (`login.dfy`) models the login override.
  - Input checks, then the password grant and the userinfo request, the user reconciliation, the token and the reply shaping.
  - Every failure maps to one error envelope built with `??` defaults.
- **Bootstrap** (`bootstrap.dfy`) models start-up.
  - The order of the bootstrap steps.
  - The idempotent seeder of the `SUPER_ADMIN` mapping.
  - Both versions of the admin-route interception predicate.
- **PermissionGate** (`permissions.dfy`) is the 401/403/next/500 decision. The current version reads the first role id, and the older and bundled ones read all of them.
- **PluginConfig** (`config.dfy`) covers the default configuration and the ordered validator.
- **AuthMiddleware** (`auth_middleware.dfy`) covers both authentication middlewares and the login URL built without encoding.
- **HomePage** (`home_page.dfy`) covers the settings page.
  - The five-action reducer.
  - The value each role's select shows.
  - The body the save button posts.

**Keycloak and the JWT.** The identity provider's answers are inputs:

- `Idp` holds the token and userinfo endpoints as functions.
- `RoleFetch` holds the admin token and the user's realm roles.
- `Result` values hold the role and permission reads.

The JWT is an opaque function of the user.

**Object keys.** A JavaScript object such as the saved mappings is a sequence of entries with distinct keys (`Entries`). Object keys are distinct by construction, so the save methods require `DistinctKeys`.

**Where the code and the comments disagree, the model follows the code.** For example, the current `findOrCreate` is described as creating or updating the user. As written, for an unknown email it creates the record and then fails.

## Model

| member | source | states |
|---|---|---|
| RoleMappingService.ValidPrefixLength | dist/server/index.mjs:205-217 | the number of leading entries whose key meets the 3–100 length rule; the next entry, if any, breaks it |
| RoleMappingService.RowsOfValid | dist/server/index.mjs:205-217 | rows made from entries with distinct keys satisfy the schema exactly when every key has an allowed length |
| RoleMappingService.MappingTable.DeleteAll | server/src/services/roleMappingService.js:24-30 | with storage available, every row is removed; on a fault nothing changes and the fault is reported |
| RoleMappingService.MappingTable.Create | server/src/services/roleMappingService.js:34-36 | the row is appended when the schema still holds; otherwise a schema violation for that key, table unchanged |
| RoleMappingService.MappingTable.CreateMany | dist/server/index.mjs:481-483 | the batch is appended as a whole, or refused as a whole on a schema violation or fault |
| RoleMappingService.MappingTable.FindByKey | server/src/bootstrap.js:125-127 | finds a row with the key exactly when one exists; a fault is reported |
| RoleMappingService.SaveMappingsCurrent | server/src/services/roleMappingService.js:21-43 | all earlier rows are gone and the table holds the rows of the leading accepted entries, in entry order; success iff every entry was inserted; each failure is the one message 'Failed to save role mappings.' |
| RoleMappingService.SaveTwiceIsSaveOnce | server/src/services/roleMappingService.js:21-43 | saving the same object twice leaves the table as saving it once does, with the same outcome |
| RoleMappingService.SaveMappingsLegacy | server/services/roleMappingService.js:17-24 | the same full replace; errors propagate unwrapped (an `undefined` object is the TypeError of `Object.entries`), partial state stays |
| RoleMappingService.SaveMappingsBundled | dist/server/index.mjs:472-488 | delete-all then one `createMany`: the table holds exactly the entries, or is empty when the batch is refused; generic message |
| RoleMappingService.GetMappingsCurrent | server/src/services/roleMappingService.js:53-61 | every row as stored, or 'Failed to retrieve role mappings.' on a fault |
| RoleMappingService.GetMappingsLegacy | server/services/roleMappingService.js:31-34 | every row as stored, or the raw storage error |
| RoleMappingService.SaveReplacesTable | server/src/services/roleMappingService.js:21-37 | a save completes iff every key has an allowed length; then the table is exactly the saved entries, schema-valid; saving `{}` empties the table |
| RoleMappingService.PartialSaveKeepsPrefix | server/src/services/roleMappingService.js:33-43 | a save that stops leaves exactly the rows of the entries before the refused one |
| RoleResolution.Collect | server/src/services/adminUserService.js:56 | the insertion-ordered set: no duplicates, the same members as the added ids |
| RoleResolution.CollectFirstSeenOrder | server/src/services/adminUserService.js:56-66 | ids of the set appear in the order of their first addition |
| RoleResolution.FirstMatch | server/src/services/adminUserService.js:64 | `find`: the id of a row keyed by the name, none iff no row has that key |
| RoleResolution.FirstMatchIsFirst | server/src/services/adminUserService.js:64 | the row `find` returns is the first one keyed by the name |
| RoleResolution.MatchedFirstMembers | server/src/services/adminUserService.js:63-66 | an id is added iff it is the first match of some held role name |
| RoleResolution.AllMatchesMembers | server/services/adminUserService.js:60-64 | the inner `map` adds exactly the ids of rows keyed by the name |
| RoleResolution.MatchedAllMembers | server/services/adminUserService.js:59-65 | an id is added iff some row maps some held role name to it |
| RoleResolution.AppliedCurrentMeaning | server/src/services/adminUserService.js:56-66 | distinct applied ids, each the first match of a held role |
| RoleResolution.AppliedLegacyMeaning | server/services/adminUserService.js:52-65 | distinct applied ids, each mapped from a held role by some row |
| RoleResolution.AllMatchesUnique | dist/server/index.mjs:205-217 | with unique keys, all matches of a name are its first match |
| RoleResolution.StrategiesAgreeOnValidTable | server/services/adminUserService.js:59-65 | on a schema-valid table the older all-matches resolution equals the current first-match one |
| RoleResolution.DuplicateKeyStrategiesDiffer | server/src/services/adminUserService.js:64 | with two rows for one key the current version takes the first id, the older one both |
| RoleResolution.UserRolesMeaning | server/src/services/adminUserService.js:72 | the role list is never empty and has no duplicates; it is `[default]` when nothing applied, and otherwise the applied list itself, unchanged and in first-seen order |
| RoleResolution.ResolutionScenario | server/src/services/adminUserService.js:58-72 | a mapped role gives its id; an unmapped one gives the default id |
| RoleResolution.ApplyRolesCurrent | server/src/services/adminUserService.js:63-66 | the `forEach` loop computes the current applied-role set |
| RoleResolution.ApplyRolesLegacy | server/services/adminUserService.js:59-65 | the nested loops compute the older applied-role set |
| RoleResolution.FetchCurrentMeaning | server/src/services/adminUserService.js:117-140 | a missing `sub` throws 'Keycloak user ID is missing!' before any request; otherwise the role names, or 'Failed to fetch Keycloak user roles.' |
| RoleResolution.FetchLegacyMeaning | server/services/adminUserService.js:110-127 | succeeds in the same cases with the same names as the current fetch; a falsy `sub` throws 'Keycloak user ID is missing!' before any request; otherwise the admin-token error, then the realm-roles error, propagates unwrapped |
| RoleResolution.ResolvedRolesMeaning | server/src/services/adminUserService.js:54-140 | in both versions the fetch fails iff `sub` is falsy or either request fails, and any such failure resolves to exactly `[default]`; a successful fetch with applied ids resolves to those ids; the list is never empty and never repeats an id |
| AdminUserService.FindByEmail | server/src/services/adminUserService.js:37-41 | the first user with the email, none iff no user has it |
| AdminUserService.UserTable.FindOne | server/services/adminUserService.js:36 | the lookup loop returns the first user with the email |
| AdminUserService.UserTable.Create | server/src/services/adminUserService.js:76-85 | appends an active user with the next id, the profile's names and the given roles |
| AdminUserService.UserTable.Update | server/src/services/adminUserService.js:89-96 | rewrites first name, last name and roles of the user with that id, nothing else |
| AdminUserService.FindOrCreateCurrent | server/src/services/adminUserService.js:23-104 | result and table state are those of the current reconciliation specification |
| AdminUserService.FindOrCreateLegacy | server/services/adminUserService.js:23-97 | result and table state are those of the older reconciliation specification |
| AdminUserService.RolesChangedMeaning | server/src/services/adminUserService.js:88 | the change guard is false iff the stored roles are the computed ids as bare numbers in the same order |
| AdminUserService.PatchTouchesOnlyNamesAndRoles | server/src/services/adminUserService.js:89-96 | an update changes only first name, last name, roles and the update stamp, and only of the target user |
| AdminUserService.CurrentFirstLoginFailsButPersists | server/src/services/adminUserService.js:75-103 | an unknown email fails with 'Failed to create/update user.', yet exactly one record is created with the profile's names (missing ones empty) |
| AdminUserService.CurrentSecondLoginSucceeds | server/src/services/adminUserService.js:37-41 | the next call finds the created record and returns it |
| AdminUserService.CurrentReturnsRecordBeforeUpdate | server/src/services/adminUserService.js:88-99 | an existing user is returned as read before the update; the update happens iff the guard holds |
| AdminUserService.CurrentErrorsAreGeneric | server/src/services/adminUserService.js:100-103 | every failure is the one generic error; a failed mapping read writes nothing |
| AdminUserService.PopulatedRolesAlwaysChanged | server/src/services/adminUserService.js:37-41 | with roles read as populated objects, every login of an existing user rewrites it, in both versions |
| AdminUserService.BareIdsLoginIsIdempotent | server/src/services/adminUserService.js:88-97 | when reads return bare ids, a second login with the same inputs writes nothing |
| AdminUserService.LegacyNewUserCreatedAndReturned | server/services/adminUserService.js:74-84 | an unknown email creates one record and returns it; no update in the same call |
| AdminUserService.LegacyUpdateIffChanged | server/services/adminUserService.js:85-94 | an existing user is updated iff the role lists differ; mapping errors propagate as they are |
| AdminUserService.IntendedReconcileSettles | server/src/services/adminUserService.js:74 | the intended reconciler returns a user and, on a repeated login, writes nothing |
| AdminUserService.IntendedComparesRoleSets | server/src/services/adminUserService.js:88-99 | the intended reconciler returns the existing user; it writes nothing iff the stored ids and the computed ids hold the same set, in any order, and otherwise only the one update of that user |
| AdminUserService.IntendedFixesFirstLogin | server/src/services/adminUserService.js:75-99 | where the code as written fails a first login, the intended reconciler succeeds with the same write |
| AuthController.ExcludeRoles | server/src/controllers/authController.js:36-38 | keeps exactly the realm roles whose name is not excluded |
| AuthController.ExcludeRolesAppend | server/src/controllers/authController.js:36-38 | the filter distributes over concatenation, so it keeps relative order |
| AuthController.ExcludeNothingKeepsAll | server/src/controllers/authController.js:36-38 | with an empty exclusion list every role is kept, in order |
| AuthController.GetRolesCurrent | server/src/controllers/authController.js:19-51 | any failed step gives 'Failed to fetch Keycloak roles'; otherwise the filtered realm roles and all local roles |
| AuthController.GetRolesLegacy | server/controllers/authController.js:31-64 | a falsy `access_token` or any failure gives 'Failed to fetch Keycloak roles'; otherwise the realm roles unfiltered |
| AuthController.EmptyExclusionMatchesLegacy | server/controllers/authController.js:56-59 | with nothing excluded the current reply equals the older one |
| AuthController.FormatMappings | server/src/controllers/authController.js:70-73 | the folded object has exactly the rows' keys |
| AuthController.FormatMappingsLastWins | server/controllers/authController.js:74-77 | for a repeated key the value is that of its last row |
| AuthController.FormatMappingsSize | server/src/controllers/authController.js:70-73 | rows with distinct keys give one key per row |
| AuthController.UniqueKeysOneEntryPerRow | server/src/controllers/authController.js:70-73 | on a schema-valid table each row's key carries that row's value |
| AuthController.SaveThenFormatRoundTrip | server/src/controllers/authController.js:70-75 | saving an object and folding the rows read back gives the same keys and values |
| AuthController.GetRoleMappings | server/src/controllers/authController.js:62-80 | the fold of every row, or 'Failed to retrieve role mappings' |
| AuthController.SaveRoleMappingsCurrent | server/src/controllers/authController.js:94-108 | the table is the full replace by `body.mappings`; 'Mappings saved successfully.' iff the save completed, else 'Failed to save role mappings' |
| AuthController.SaveRoleMappingsLegacy | server/controllers/authController.js:85-94 | the same through the older service, with 'Mappings saved' / 'Failed to save mappings' |
| AuthController.KeycloakCallback | server/controllers/authController.js:6-7 | a falsy `code` answers 'Missing authorization code' before authenticating |
| Login.PasswordGrant | server/src/controllers/authOverrideController.js:41-48 | the form carries the client id and secret, `username` = email, the password, `grant_type=password`, and `scope=openid` exactly in the current version |
| Login.AuthenticateCurrent | server/src/controllers/authOverrideController.js:26-32 | the request is refused as missing credentials exactly when the body, email or password is absent or falsy |
| Login.AuthenticateLegacy | server/controllers/authOverrideController.js:27-33 | a missing body throws a TypeError; missing credentials otherwise as in the current version |
| Login.View | server/src/controllers/authOverrideController.js:84-94 | fields copied from the user, `username` null when empty, `blocked` false unless true |
| Login.LoginCurrent | server/src/controllers/authOverrideController.js:23-112 | reply, session and user-table writes are those of the current login specification |
| Login.LoginLegacy | server/controllers/authOverrideController.js:24-113 | reply, session and user-table writes are those of the older login specification |
| Login.EnvelopeDefaults | server/src/controllers/authOverrideController.js:103-110 | status 400, name 'ApplicationError', message 'Invalid credentials' and details `{}` for absent fields; present ones are kept |
| Login.MissingCredentialsShortCircuit | server/src/controllers/authOverrideController.js:30-32 | missing credentials answer 'Missing email or password', touch nothing and do not depend on the configuration or the identity provider |
| Login.MissingBodyRepliesDiffer | server/controllers/authOverrideController.js:27 | an absent body: 'Missing email or password' in the current version, 'Invalid credentials' with the TypeError in the older one |
| Login.FailuresAreInvalidCredentials | server/src/controllers/authOverrideController.js:97-111 | every thrown error answers 'Invalid credentials' with an envelope and leaves the session; only the reconciliation can have written |
| Login.SuccessFillsSessionSlot | server/src/controllers/authOverrideController.js:67-96 | the token is for the reconciled user, who lands in `session.user` with the rest of the session kept; the older login (`server/controllers/authOverrideController.js:77-96`) uses `session.adminUser` and adds `connectedToken`, `attemptResetToken` '0' and `preferedLanguage` null |
| Login.FirstLoginEndToEnd | server/src/controllers/authOverrideController.js:67-111 | a first login is refused with the message 'Failed to create/update user.' though the user was created; the older version grants it |
| Login.CurrentRetryGranted | server/src/controllers/authOverrideController.js:67-96 | the login after that refused one is granted with the created record |
| Login.IntendedFirstLoginGranted | server/src/controllers/authOverrideController.js:67-96 | over the intended reconciler the first login is granted with the created record and the same write |
| Bootstrap.RouteCurrentMeaning | server/src/bootstrap.js:70-82 | `POST /admin/login` runs the login; a `GET` containing one of the three blocked fragments redirects; anything else calls `next`; the bundled predicate at `dist/server/index.mjs:117-127` is the same |
| Bootstrap.LegacyRedirectsAreCurrentRedirects | server/bootstrap.js:38-42 | every request the older predicate redirects, the current one redirects too |
| Bootstrap.ForgotPasswordRoutesDiffer | server/bootstrap.js:38-45 | `GET` forgot-password is redirected by the current predicate only |
| Bootstrap.ResetPasswordSubpathRoutesDiffer | server/bootstrap.js:39 | a sub-path of reset-password is redirected by the current predicate only |
| Bootstrap.RoutesPassThrough | server/bootstrap.js:35-45 | a `POST` to register and a `GET` of the login page go to `next` in both versions |
| Bootstrap.FindRoleByCode | server/src/bootstrap.js:109-111 | the first role with the super-admin code, none iff no role has it |
| Bootstrap.EnsureDefaultRoleMapping | server/src/bootstrap.js:106-141 | the table becomes the seeded rows; a fault or a failed lookup is swallowed with the table unchanged; the bundled seeder at `dist/server/index.mjs:141-163` is the same |
| Bootstrap.CountKeyValid | dist/server/index.mjs:205-217 | on a schema-valid table a key occurs at most once, once iff present |
| Bootstrap.SeedingIdempotent | server/src/bootstrap.js:125-134 | seeding twice leaves what seeding once leaves |
| Bootstrap.SeedingLeavesOneDefaultRow | server/src/bootstrap.js:113-134 | with the super-admin role present exactly one `SUPER_ADMIN` row remains, schema kept; without it nothing is written |
| Bootstrap.ExistingDefaultRowNotCorrected | server/src/bootstrap.js:129-137 | an existing `SUPER_ADMIN` row is kept whatever role it maps to |
| Bootstrap.BootstrapCurrent | server/src/bootstrap.js:12-52 | registration (failure swallowed), then the seeder, then the route override |
| Bootstrap.BootstrapLegacy | server/bootstrap.js:10-17 | registers no permissions and does not seed; the mapping table keeps its rows and its fault state; only the route override is installed |
| PermissionGate.RoleIds | server/middlewares/checkAdminPermission.js:23 | exactly the ids of the role objects among the user's roles |
| PermissionGate.CountGranting | server/middlewares/checkAdminPermission.js:26-28 | the count is positive iff some permission row grants the action to one of the roles |
| PermissionGate.CheckCurrent | server/src/middlewares/checkAdminPermission.js:8-39 | 401 without `session.user`, 500 on a failed query, `next` iff the first role grants the permission, otherwise 403 naming it |
| PermissionGate.CheckLegacy | server/middlewares/checkAdminPermission.js:11-40 | 401 without `session.adminUser`, 500 on a failed query, `next` iff any role grants it, otherwise 403 |
| PermissionGate.CheckBundled | dist/server/index.mjs:310-328 | reads `session.user` and all role ids |
| PermissionGate.OnlyFirstRoleMatters | server/src/middlewares/checkAdminPermission.js:19-27 | users agreeing on their first role get the same answer |
| PermissionGate.CurrentNextImpliesBundledNext | server/src/middlewares/checkAdminPermission.js:19-34 | whatever the first-role gate admits, the all-roles gate admits |
| PermissionGate.SecondRoleOnlyCountedByAllIdGates | server/src/middlewares/checkAdminPermission.js:19 | a permission held only by the second role: 403 from the current gate, `next` from the others |
| PermissionGate.SessionSlotsDiffer | server/middlewares/checkAdminPermission.js:15-20 | a session filled by one login version is refused with 401 by the other version's gate |
| PluginConfig.Validate | server/src/config/index.js:14-27 | passes iff the four keys are truthy; otherwise throws 'Missing KEY in plugin config.' for the first falsy one in check order; the bundled validator at `dist/server/index.mjs:182-195` is the same |
| PluginConfig.DefaultConfigFails | server/src/config/index.js:2-17 | the defaults fail on `KEYCLOAK_AUTH_URL` because an empty string is missing |
| PluginConfig.UncheckedKeysIgnored | server/src/config/index.js:14-27 | token URL, userinfo URL, redirect URI and role settings never affect validation |
| AuthMiddleware.AuthCurrent | server/src/middlewares/authMiddleware.js:10-27 | no user answers 401 with the login URL as `redirect`; a user calls `next`; the configuration is read on every request |
| AuthMiddleware.AuthLegacy | server/middlewares/authMiddleware.js:11-22 | no user redirects to the login URL; a user calls `next` without reading the configuration |
| AuthMiddleware.MiddlewaresCompared | server/middlewares/authMiddleware.js:12-21 | both versions send the same URL; only the current one needs the configuration with a user present |
| AuthMiddleware.DefaultLoginUrl | server/src/middlewares/authMiddleware.js:16 | the default configuration gives an empty base and client id and the text `undefined` as redirect URI |
| AuthMiddleware.LoginUrlNotInjective | server/src/middlewares/authMiddleware.js:16 | values are not encoded: two different configurations give the same URL |
| HomePage.SetDataOverlays | admin/src/pages/HomePage.jsx:61-62 | each carried payload field replaces the state's, the rest is kept, and loading ends even if the payload says otherwise; the bundled reducer at `dist/_chunks/App-Dcls-5hj.js:22-23` is the same |
| HomePage.LoadingThePage | admin/src/pages/HomePage.jsx:43-50 | from the initial state a load shows exactly the fetched lists; a failed fetch shows the error with empty lists; the bundled initial state at `dist/_chunks/App-8lWzVXTu.mjs:8-15` is the same |
| HomePage.SetRoleMappingOnlyKey | admin/src/pages/HomePage.jsx:63-67 | sets that key only; other keys and fields unchanged; the bundled reducer at `dist/_chunks/App-8lWzVXTu.mjs:20-24` is the same |
| HomePage.SetRoleMappingIdempotent | admin/src/pages/HomePage.jsx:63-67 | applying the same pick twice equals applying it once |
| HomePage.SetRoleMappingCommutes | dist/_chunks/App-Dcls-5hj.js:24-28 | picks for different roles commute |
| HomePage.FlagActionsFrames | admin/src/pages/HomePage.jsx:68-75 | error, success and reset touch only their fields; an unknown type is the identity; the older bundled reducer at `dist/_chunks/App-BeiK6w8K.mjs:25-32` is the same |
| HomePage.MappingsOnlyChangeByMappingActions | admin/src/pages/HomePage.jsx:139 | across dispatches that do not touch mappings the posted body stays the same |
| HomePage.LastPickIsSaved | admin/src/pages/HomePage.jsx:139 | the last pick for a role is what the save posts for it |
| HomePage.DecimalString | admin/src/pages/HomePage.jsx:201 | `String(n)` is never empty and is "0" only for 0 |
| HomePage.DigitsRoundTrip | admin/src/pages/HomePage.jsx:201 | reading back the decimal digits written for a natural number gives that number |
| HomePage.DecimalStringMeaning | admin/src/pages/HomePage.jsx:201-207 | `String(n)` is the decimal notation of `n` (a minus sign before the digits of `-n` when negative), so distinct ids give distinct select values |
| HomePage.SelectValueBlank | admin/src/pages/HomePage.jsx:201 | a role shows '' iff it has no mapping or a falsy one; otherwise the id as a string |
| HomePage.SelectVariantsAgree | dist/_chunks/App-BeiK6w8K.mjs:89 | the older select value is blank in the same cases and is otherwise the raw value, whose conversion is the current one |
| HomePage.SelectValueExamples | dist/_chunks/App-BeiK6w8K.mjs:89 | a mapping of 0 shows blank; 7 shows "7" (raw: the number 7) |

## Left out

- Keycloak token fetching (the `keycloakService` client-credentials grant) is not modelled: the admin token is an input that succeeded or failed.
- HTTP calls (token, userinfo, realm roles, user role mappings) are abstract inputs. URLs and headers are passed to them, but status codes and response bodies beyond the used fields are not modelled.
- Storage is modelled as in-memory tables. Query syntax (`$notNull`, `$in`, `populate`, `limit`) is not modelled, and neither are `documentId` or the update stamp beyond a given time value.
- AdminUserService.FindOrCreateCurrent: does not model a failing read or write of the user table, because the user table has no fault field. Only mapping-read and role-fetch failures are modelled.
- AdminUserService.FindOrCreateLegacy: same limitation, for the same reason.
- PermissionGate.CheckCurrent: where the first role has no `id`, or the user has no role, the query is treated as matching nothing. The store's handling of an `undefined` filter value is not modelled.
- JWT creation is an opaque total function of the user. A failure of it is not modelled.
- The passport flow of `keycloakCallback` is framework glue. Only the missing-code check is modelled.
- Permission registration, plugin registration, and route and service wiring are not modelled. Only their order in the bootstrap is kept.
- Koa `ctx` is reduced to the fields read. `unauthorized`, `forbidden`, `redirect` and `next` are decisions, not calls.
- Logging is not modelled.
- Configuration lookup under the differing plugin keys is not modelled. The default role id, the excluded roles and the configuration object are parameters.
- Login.PasswordGrant: the form is an ordered list of pairs. `URLSearchParams` percent-encoding is not modelled.
- Login.TypeError messages follow the V8 engine's wording. The message text is not fixed by the source.
- HomePage: rendering, hooks and effects are not modelled. This includes `Promise.all`, `setTimeout`, `isSaving` and `notifyAT`.
- HomePage.SetDataOverlays: a payload field that is present but `undefined` is not modelled. An absent field keeps the state's value.
- HomePage.MappedValue: numbers are integers. The store's coercion of a picked string id into the integer column is not modelled.
- Concurrency is not modelled: requests run one at a time. Timers are not modelled either.
- The key-length rule counts Dafny characters. JavaScript counts UTF-16 code units.
- Bundled login (`dist/server/index.mjs` login override): not modelled. It sends no `scope`, assigns `ctx.session.user` without keeping the rest of the session, and adds the older reply's extra fields; it matches neither modelled login.
- AdminUserService.Profile: `email` is always a string. A userinfo answer without `email`, which would look users up by an `undefined` filter, is not modelled.
- Login.Credentials: `email` and `password` are absent or strings. Body values of other JavaScript types are not modelled.
- RoleMappingService.MappingTable.Create: assumes every writer's `create` enforces the schema's key-length rule and unique key. That includes the older save and the seeder, which write through the low-level query API. The source text shows the rule only in the content-type schema.
- AuthController.FormatMappings and HomePage.SelectValue: JavaScript prototype keys are not modelled. A row keyed `__proto__` is dropped by the fold's assignment but kept by the model. A role named like an `Object.prototype` member (`constructor`) reads the inherited function on the page, where the model shows ''.

## Findings

| source | as written | input that shows it | evidently intended | confidence | as-written member | corrected member |
|---|---|---|---|---|---|---|
| server/src/services/adminUserService.js:75-99 | after creating a new user the code reads `adminUser.roles` on `undefined`; the TypeError is rethrown as 'Failed to create/update user.' and the created record stays | any first login of an email the user table does not hold, with the mappings readable | return the created user, as the older version does | not executed | AdminUserService.CurrentFirstLoginFailsButPersists | AdminUserService.ReconcileIntended |
| server/src/services/adminUserService.js:37-41 | roles are read populated (`populate: { roles: true }`), so `JSON.stringify` of role objects never equals that of the id list and the guard is always true | an existing user whose only role is `{ id: 3 }` and whose computed roles are `[3]`: every login rewrites the user | update only when the set of role ids differs ("only when needed"), whatever order and form the store returns | not executed | AdminUserService.PopulatedRolesAlwaysChanged | AdminUserService.ReconcileIntended |
