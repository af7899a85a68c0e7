/** The login override: the password grant against the identity provider,
    the userinfo request, the user reconciliation, the token and the reply,
    in the current and the older version. Each version is specified by a
    function giving the reply, the session and the writes to the user table,
    and implemented by a method on the tables. */
module Login {
  import opened Common
  import opened Host
  import opened PluginConfig
  import opened RoleMappingService
  import opened RoleResolution
  import opened AdminUserService

  /** The request body's `email` and `password`, each possibly `undefined`. */
  datatype Credentials = Credentials(email: Option<string>, password: Option<string>)

  /** The fields of a form-encoded request body, in order. */
  type Form = seq<(string, string)>

  /** The identity provider as the handler reaches it. The token endpoint
      answers a URL and a form with the `access_token` of its reply (possibly
      missing) or throws; the userinfo endpoint answers a URL and an
      `Authorization` header with the profile or throws. */
  datatype Idp = Idp(token: (string, Form) -> Result<Option<string>, JsError>,
                     userinfo: (string, string) -> Result<Profile, JsError>)

  /** A TypeError thrown by reading a property of `undefined`. */
  function TypeError(message: string): JsError
  {
    JsError(None, Some("TypeError"), Some(message), None)
  }

  const ReadBodyMessage := "Cannot read properties of undefined (reading 'email')"
  const ReadConfigMessage := "Cannot read properties of undefined (reading 'KEYCLOAK_AUTH_URL')"
  const MissingCredentialsMessage := "Missing email or password"
  const InvalidCredentialsMessage := "Invalid credentials"

  /** The value a form holds for a key, the first one when repeated. */
  function Lookup(form: Form, key: string): Option<string>
  {
    if |form| == 0 then None else if form[0].0 == key then Some(form[0].1) else Lookup(form[1..], key)
  }

  /** Pairs before the first one with the key do not affect the lookup. */
  lemma {:induction false} LookupSkip(form: Form, key: string, n: nat)
    requires n <= |form|
    requires forall i :: 0 <= i < n ==> form[i].0 != key
    ensures Lookup(form, key) == Lookup(form[n..], key)
    decreases n
  {
    if n > 0 {
      assert form[0].0 != key;
      assert forall i :: 0 <= i < n - 1 ==> form[1..][i].0 == form[i + 1].0;
      LookupSkip(form[1..], key, n - 1);
      assert form[1..][n - 1..] == form[n..];
    }
  }

  /** The password-grant form. The current version adds `scope=openid`;
      configuration values that are not set are sent as `undefined`. */
  function PasswordGrant(c: Config, email: string, password: string, withScope: bool): (form: Form)
    ensures Lookup(form, "username") == Some(email) && Lookup(form, "password") == Some(password)
    ensures Lookup(form, "grant_type") == Some("password")
    ensures Lookup(form, "client_id") == Some(Interpolate(c.clientId))
    ensures Lookup(form, "client_secret") == Some(Interpolate(c.clientSecret))
    ensures Lookup(form, "scope").Some? <==> withScope
    ensures withScope ==> Lookup(form, "scope") == Some("openid")
  {
    var scope: Form := if withScope then [("scope", "openid")] else [];
    var form := [("client_id", Interpolate(c.clientId)), ("client_secret", Interpolate(c.clientSecret)),
                 ("username", email), ("password", password), ("grant_type", "password")] + scope;
    assert form[5..] == scope;
    LookupSkip(form, "scope", 5);
    LookupSkip(form, "grant_type", 4);
    assert form[4..][0] == ("grant_type", "password");
    LookupSkip(form, "password", 3);
    assert form[3..][0] == ("password", password);
    LookupSkip(form, "username", 2);
    assert form[2..][0] == ("username", email);
    LookupSkip(form, "client_secret", 1);
    assert form[1..][0] == ("client_secret", Interpolate(c.clientSecret));
    form
  }

  /** How far the request got before the user store is reached. */
  datatype AuthStep = Missing | Failed(error: JsError) | Authenticated(profile: Profile)

  /** Configuration, token request and userinfo request, with both
      credentials present. A missing `access_token` is sent as
      `Bearer undefined`. */
  function Authenticate(email: string, password: string, cfg: Option<Config>, idp: Idp, withScope: bool): AuthStep
  {
    if cfg.None? then Failed(TypeError(ReadConfigMessage))
    else
      var c := cfg.value;
      var tokenResponse := idp.token(Interpolate(c.authUrl) + Interpolate(c.tokenUrl),
                                     PasswordGrant(c, email, password, withScope));
      if tokenResponse.Err? then Failed(tokenResponse.error)
      else
        var userInfoResponse := idp.userinfo(Interpolate(c.authUrl) + Interpolate(c.userinfoUrl),
                                             "Bearer " + Interpolate(tokenResponse.value));
        if userInfoResponse.Err? then Failed(userInfoResponse.error) else Authenticated(userInfoResponse.value)
  }

  /** Both credentials present and truthy. */
  predicate HasCredentials(body: Credentials)
  {
    Truthy(body.email) && Truthy(body.password)
  }

  /** Current version: `ctx.request.body?.email`, so a missing body counts
      as missing credentials. */
  function AuthenticateCurrent(body: Option<Credentials>, cfg: Option<Config>, idp: Idp): (step: AuthStep)
    ensures step == Missing <==> body.None? || !HasCredentials(body.value)
  {
    if body.None? || !HasCredentials(body.value) then Missing
    else Authenticate(body.value.email.value, body.value.password.value, cfg, idp, true)
  }

  /** Older version: `ctx.request.body.email`, so a missing body throws
      inside the `try`. */
  function AuthenticateLegacy(body: Option<Credentials>, cfg: Option<Config>, idp: Idp): (step: AuthStep)
    ensures body.None? ==> step == Failed(TypeError(ReadBodyMessage))
    ensures step == Missing <==> body.Some? && !HasCredentials(body.value)
  {
    if body.None? then Failed(TypeError(ReadBodyMessage))
    else if !HasCredentials(body.value) then Missing
    else Authenticate(body.value.email.value, body.value.password.value, cfg, idp, false)
  }

  /** The `error` object of the failure reply: each field of the caught value,
      or its default when that field is `undefined`. */
  datatype ErrorEnvelope = ErrorEnvelope(status: int, name: string, message: string, details: map<string, string>)

  function Envelope(e: JsError): ErrorEnvelope
  {
    ErrorEnvelope(if e.status.Some? then e.status.value else 400,
                  if e.name.Some? then e.name.value else "ApplicationError",
                  if e.message.Some? then e.message.value else InvalidCredentialsMessage,
                  if e.details.Some? then e.details.value else map[])
  }

  /** The `user` object of the success reply. */
  datatype UserView = UserView(id: nat, firstname: string, lastname: string, username: Option<string>, email: string,
                               isActive: bool, blocked: bool, createdAt: string, updatedAt: string)

  /** The fields only the older reply carries. */
  datatype LegacyExtras = LegacyExtras(connectedToken: string, attemptResetToken: string, preferedLanguage: Option<string>)

  /** `username || null` and `blocked || false` over the stored record. */
  function View(u: AdminUser): (v: UserView)
    ensures v.username.None? <==> u.username == ""
    ensures v.username.Some? ==> v.username.value == u.username
    ensures v.blocked <==> u.blocked == Some(true)
    ensures v.id == u.id && v.email == u.email && v.firstname == u.firstname && v.lastname == u.lastname
    ensures v.isActive == u.isActive && v.createdAt == u.createdAt && v.updatedAt == u.updatedAt
  {
    UserView(u.id, u.firstname, u.lastname, if u.username != "" then Some(u.username) else None, u.email,
             u.isActive, u.blocked == Some(true), u.createdAt, u.updatedAt)
  }

  /** `ctx.send({ data: { token, user } })` or `ctx.badRequest(message, { error })`. */
  datatype LoginReply = Granted(token: string, user: UserView, extras: Option<LegacyExtras>)
                      | Rejected(message: string, error: Option<ErrorEnvelope>)

  /** What one login request answers, leaves in the session and writes. */
  datatype LoginRun = LoginRun(reply: LoginReply, session: Session, writes: seq<Write>)

  /** The reply to a request refused before the user store is reached. */
  function Refused(step: AuthStep, session: Session): LoginRun
    requires !step.Authenticated?
  {
    match step
    case Missing => LoginRun(Rejected(MissingCredentialsMessage, None), session, [])
    case Failed(e) => LoginRun(Rejected(InvalidCredentialsMessage, Some(Envelope(e))), session, [])
  }

  /** The current reply once the reconciler has answered: on success the
      session is spread and its `user` slot set. */
  function RespondCurrent(spec: Reconciliation, createJwt: AdminUser -> string, session: Session): LoginRun
  {
    if spec.result.Err? then LoginRun(Rejected(InvalidCredentialsMessage, Some(Envelope(spec.result.error))), session, spec.writes)
    else
      var u := spec.result.value;
      LoginRun(Granted(createJwt(u), View(u), None), session.(user := Some(u)), spec.writes)
  }

  /** Current login over the store's contents. */
  function LoginCurrentRun(body: Option<Credentials>, cfg: Option<Config>, idp: Idp,
                           users: seq<AdminUser>, nextId: nat, repr: RolesRepr, mappings: Result<seq<Row>, JsError>,
                           fetch: RoleFetch, defaultRoleId: int, now: string,
                           createJwt: AdminUser -> string, session: Session): LoginRun
  {
    var step := AuthenticateCurrent(body, cfg, idp);
    if !step.Authenticated? then Refused(step, session)
    else RespondCurrent(ReconcileCurrent(users, nextId, repr, mappings, step.profile, fetch, defaultRoleId, now), createJwt, session)
  }

  /** The current login over the intended reconciler. */
  function LoginIntendedRun(body: Option<Credentials>, cfg: Option<Config>, idp: Idp,
                            users: seq<AdminUser>, nextId: nat, repr: RolesRepr, mappings: Result<seq<Row>, JsError>,
                            fetch: RoleFetch, defaultRoleId: int, now: string,
                            createJwt: AdminUser -> string, session: Session): LoginRun
  {
    var step := AuthenticateCurrent(body, cfg, idp);
    if !step.Authenticated? then Refused(step, session)
    else RespondCurrent(ReconcileIntended(users, nextId, repr, mappings, step.profile, fetch, defaultRoleId, now), createJwt, session)
  }

  /** Older login over the store's contents. On success the session's
      `adminUser` slot is set, and the reply also carries the token as
      `connectedToken`, `attemptResetToken` "0" and `preferedLanguage` null. */
  function LoginLegacyRun(body: Option<Credentials>, cfg: Option<Config>, idp: Idp,
                          users: seq<AdminUser>, nextId: nat, repr: RolesRepr, mappings: Result<seq<Row>, JsError>,
                          fetch: RoleFetch, defaultRole: int, now: string,
                          createJwt: AdminUser -> string, session: Session): LoginRun
  {
    var step := AuthenticateLegacy(body, cfg, idp);
    if !step.Authenticated? then Refused(step, session)
    else
      var spec := ReconcileLegacy(users, nextId, repr, mappings, step.profile, fetch, defaultRole, now);
      if spec.result.Err? then LoginRun(Rejected(InvalidCredentialsMessage, Some(Envelope(spec.result.error))), session, spec.writes)
      else
        var u := spec.result.value;
        var jwt := createJwt(u);
        LoginRun(Granted(jwt, View(u), Some(LegacyExtras(jwt, "0", None))), session.(adminUser := Some(u)), spec.writes)
  }

  /** Current login on the tables. */
  method LoginCurrent(body: Option<Credentials>, cfg: Option<Config>, idp: Idp, table: UserTable, mappings: MappingTable,
                      fetch: RoleFetch, defaultRoleId: int, now: string, createJwt: AdminUser -> string, session: Session)
    returns (reply: LoginReply, newSession: Session)
    requires table.Valid()
    modifies table
    ensures table.Valid()
    ensures var run := LoginCurrentRun(body, cfg, idp, old(table.users), old(table.nextId), table.repr, mappings.ReadAll(),
                                       fetch, defaultRoleId, now, createJwt, session);
      && reply == run.reply && newSession == run.session
      && table.users == ApplyWrites(old(table.users), run.writes)
      && table.nextId == old(table.nextId) + InsertCount(run.writes)
  {
    newSession := session;
    var step := AuthenticateCurrent(body, cfg, idp);
    if step.Missing? {
      return Rejected(MissingCredentialsMessage, None), newSession;
    }
    if step.Failed? {
      return Rejected(InvalidCredentialsMessage, Some(Envelope(step.error))), newSession;
    }
    var adminUser := FindOrCreateCurrent(table, mappings, step.profile, fetch, defaultRoleId, now);
    if adminUser.Err? {
      return Rejected(InvalidCredentialsMessage, Some(Envelope(adminUser.error))), newSession;
    }
    var jwt := createJwt(adminUser.value);
    newSession := session.(user := Some(adminUser.value));
    reply := Granted(jwt, View(adminUser.value), None);
  }

  /** Older login on the tables. */
  method LoginLegacy(body: Option<Credentials>, cfg: Option<Config>, idp: Idp, table: UserTable, mappings: MappingTable,
                     fetch: RoleFetch, defaultRole: int, now: string, createJwt: AdminUser -> string, session: Session)
    returns (reply: LoginReply, newSession: Session)
    requires table.Valid()
    modifies table
    ensures table.Valid()
    ensures var run := LoginLegacyRun(body, cfg, idp, old(table.users), old(table.nextId), table.repr, mappings.ReadAll(),
                                      fetch, defaultRole, now, createJwt, session);
      && reply == run.reply && newSession == run.session
      && table.users == ApplyWrites(old(table.users), run.writes)
      && table.nextId == old(table.nextId) + InsertCount(run.writes)
  {
    newSession := session;
    var step := AuthenticateLegacy(body, cfg, idp);
    if step.Missing? {
      return Rejected(MissingCredentialsMessage, None), newSession;
    }
    if step.Failed? {
      return Rejected(InvalidCredentialsMessage, Some(Envelope(step.error))), newSession;
    }
    var adminUser := FindOrCreateLegacy(table, mappings, step.profile, fetch, defaultRole, now);
    if adminUser.Err? {
      return Rejected(InvalidCredentialsMessage, Some(Envelope(adminUser.error))), newSession;
    }
    var jwt := createJwt(adminUser.value);
    newSession := session.(adminUser := Some(adminUser.value));
    reply := Granted(jwt, View(adminUser.value), Some(LegacyExtras(jwt, "0", None)));
  }

  // ---------------------------------------------------------------------
  // Properties

  /** The envelope of a plain `Error`: status 400, name "Error", its message,
      empty details. A value with every field set keeps them all. */
  lemma EnvelopeDefaults(m: string, status: int, name: string, message: string, details: map<string, string>)
    ensures Envelope(Error(m)) == ErrorEnvelope(400, "Error", m, map[])
    ensures Envelope(JsError(None, None, None, None)) == ErrorEnvelope(400, "ApplicationError", InvalidCredentialsMessage, map[])
    ensures Envelope(JsError(Some(status), Some(name), Some(message), Some(details))) == ErrorEnvelope(status, name, message, details)
  {
  }

  /** Missing credentials are refused before anything else happens: the reply
      does not depend on the configuration, the identity provider or the store,
      and nothing is written or put in the session. */
  lemma MissingCredentialsShortCircuit(body: Option<Credentials>, cfg1: Option<Config>, cfg2: Option<Config>, idp1: Idp, idp2: Idp,
                                       users: seq<AdminUser>, nextId: nat, repr: RolesRepr, mappings: Result<seq<Row>, JsError>,
                                       fetch: RoleFetch, defaultRoleId: int, now: string,
                                       createJwt: AdminUser -> string, session: Session)
    requires body.None? || !HasCredentials(body.value)
    ensures var run := LoginCurrentRun(body, cfg1, idp1, users, nextId, repr, mappings, fetch, defaultRoleId, now, createJwt, session);
      && run == LoginRun(Rejected(MissingCredentialsMessage, None), session, [])
      && run == LoginCurrentRun(body, cfg2, idp2, users, nextId, repr, mappings, fetch, defaultRoleId, now, createJwt, session)
    ensures body.Some? ==>
      LoginLegacyRun(body, cfg1, idp1, users, nextId, repr, mappings, fetch, defaultRoleId, now, createJwt, session)
      == LoginRun(Rejected(MissingCredentialsMessage, None), session, [])
  {
  }

  /** A missing request body: the current version answers "Missing email or
      password", the older one the TypeError as invalid credentials. */
  lemma MissingBodyRepliesDiffer(cfg: Option<Config>, idp: Idp,
                                 users: seq<AdminUser>, nextId: nat, repr: RolesRepr, mappings: Result<seq<Row>, JsError>,
                                 fetch: RoleFetch, defaultRoleId: int, now: string,
                                 createJwt: AdminUser -> string, session: Session)
    ensures LoginCurrentRun(None, cfg, idp, users, nextId, repr, mappings, fetch, defaultRoleId, now, createJwt, session).reply
            == Rejected(MissingCredentialsMessage, None)
    ensures LoginLegacyRun(None, cfg, idp, users, nextId, repr, mappings, fetch, defaultRoleId, now, createJwt, session).reply
            == Rejected(InvalidCredentialsMessage, Some(ErrorEnvelope(400, "TypeError", ReadBodyMessage, map[])))
  {
  }

  /** Every other failure, wherever it is thrown, is answered "Invalid
      credentials" with an error object, and leaves the session as it was;
      only a failure inside the user reconciliation can have written. */
  lemma FailuresAreInvalidCredentials(body: Option<Credentials>, cfg: Option<Config>, idp: Idp,
                                      users: seq<AdminUser>, nextId: nat, repr: RolesRepr, mappings: Result<seq<Row>, JsError>,
                                      fetch: RoleFetch, defaultRoleId: int, now: string,
                                      createJwt: AdminUser -> string, session: Session)
    requires body.Some? && HasCredentials(body.value)
    ensures var run := LoginCurrentRun(body, cfg, idp, users, nextId, repr, mappings, fetch, defaultRoleId, now, createJwt, session);
      run.reply.Rejected? ==> run.reply.message == InvalidCredentialsMessage && run.reply.error.Some? && run.session == session
    ensures var run := LoginLegacyRun(body, cfg, idp, users, nextId, repr, mappings, fetch, defaultRoleId, now, createJwt, session);
      run.reply.Rejected? ==> run.reply.message == InvalidCredentialsMessage && run.reply.error.Some? && run.session == session
    ensures !AuthenticateCurrent(body, cfg, idp).Authenticated? ==>
      LoginCurrentRun(body, cfg, idp, users, nextId, repr, mappings, fetch, defaultRoleId, now, createJwt, session).writes == []
    ensures cfg.None? ==>
      LoginCurrentRun(body, cfg, idp, users, nextId, repr, mappings, fetch, defaultRoleId, now, createJwt, session).reply
      == Rejected(InvalidCredentialsMessage, Some(ErrorEnvelope(400, "TypeError", ReadConfigMessage, map[])))
  {
  }

  /** A successful login puts the user in its version's session slot and
      leaves the rest of the session as it was. */
  lemma SuccessFillsSessionSlot(body: Option<Credentials>, cfg: Option<Config>, idp: Idp,
                                users: seq<AdminUser>, nextId: nat, repr: RolesRepr, mappings: Result<seq<Row>, JsError>,
                                fetch: RoleFetch, defaultRoleId: int, now: string,
                                createJwt: AdminUser -> string, session: Session)
    ensures var run := LoginCurrentRun(body, cfg, idp, users, nextId, repr, mappings, fetch, defaultRoleId, now, createJwt, session);
      run.reply.Granted? ==>
        && run.session.user.Some? && run.session.adminUser == session.adminUser && run.session.rest == session.rest
        && run.reply.token == createJwt(run.session.user.value) && run.reply.user == View(run.session.user.value)
        && run.reply.extras.None?
    ensures var run := LoginLegacyRun(body, cfg, idp, users, nextId, repr, mappings, fetch, defaultRoleId, now, createJwt, session);
      run.reply.Granted? ==>
        && run.session.adminUser.Some? && run.session.user == session.user && run.session.rest == session.rest
        && run.reply.token == createJwt(run.session.adminUser.value) && run.reply.user == View(run.session.adminUser.value)
        && run.reply.extras == Some(LegacyExtras(run.reply.token, "0", None))
  {
  }

  /** First login of a user the store does not know, with the mappings
      readable: the current version creates the record but answers "Invalid
      credentials" with the generic reconciliation error; the older version
      answers with the created record (given the identity provider accepts
      its form without the scope too). */
  lemma FirstLoginEndToEnd(body: Option<Credentials>, cfg: Option<Config>, idp: Idp,
                           users: seq<AdminUser>, nextId: nat, repr: RolesRepr, rows: seq<Row>,
                           fetch: RoleFetch, defaultRoleId: int, now: string,
                           createJwt: AdminUser -> string, session: Session, p: Profile)
    requires AuthenticateCurrent(body, cfg, idp) == Authenticated(p) && AuthenticateLegacy(body, cfg, idp) == Authenticated(p)
    requires FindByEmail(users, p.email).None?
    ensures var run := LoginCurrentRun(body, cfg, idp, users, nextId, repr, Ok(rows), fetch, defaultRoleId, now, createJwt, session);
      var u := NewUser(nextId, p, ResolvedRolesCurrent(FetchUserRolesCurrent(p.sub, fetch), rows, defaultRoleId), repr, now);
      && run.reply == Rejected(InvalidCredentialsMessage, Some(ErrorEnvelope(400, "Error", UserFailedMessage, map[])))
      && run.session == session
      && ApplyWrites(users, run.writes) == users + [u]
    ensures var run := LoginLegacyRun(body, cfg, idp, users, nextId, repr, Ok(rows), fetch, defaultRoleId, now, createJwt, session);
      var u := NewUser(nextId, p, ResolvedRolesLegacy(FetchUserRolesLegacy(p.sub, fetch), rows, defaultRoleId), repr, now);
      && run.reply == Granted(createJwt(u), View(u), Some(LegacyExtras(createJwt(u), "0", None)))
      && run.session == session.(adminUser := Some(u))
      && run.writes == [Insert(u)]
  {
    CurrentFirstLoginFailsButPersists(users, nextId, repr, rows, p, fetch, defaultRoleId, now);
  }

  /** In the current version the login after that failing first one is
      granted, with the record the first one created. */
  lemma CurrentRetryGranted(body: Option<Credentials>, cfg: Option<Config>, idp: Idp,
                            users: seq<AdminUser>, nextId: nat, repr: RolesRepr, rows: seq<Row>,
                            fetch: RoleFetch, defaultRoleId: int, now: string, later: string,
                            createJwt: AdminUser -> string, session: Session, p: Profile)
    requires AuthenticateCurrent(body, cfg, idp) == Authenticated(p)
    requires FindByEmail(users, p.email).None?
    ensures var first := LoginCurrentRun(body, cfg, idp, users, nextId, repr, Ok(rows), fetch, defaultRoleId, now, createJwt, session);
      var second := LoginCurrentRun(body, cfg, idp, ApplyWrites(users, first.writes), nextId + InsertCount(first.writes), repr, Ok(rows),
                                    fetch, defaultRoleId, later, createJwt, session);
      var u := NewUser(nextId, p, ResolvedRolesCurrent(FetchUserRolesCurrent(p.sub, fetch), rows, defaultRoleId), repr, now);
      && first.reply.Rejected?
      && second.reply == Granted(createJwt(u), View(u), None)
      && second.session.user == Some(u)
  {
    var first := ReconcileCurrent(users, nextId, repr, Ok(rows), p, fetch, defaultRoleId, now);
    CurrentFirstLoginFailsButPersists(users, nextId, repr, rows, p, fetch, defaultRoleId, now);
    assert InsertCount(first.writes) == 1;
    CurrentSecondLoginSucceeds(users, nextId, repr, rows, p, fetch, defaultRoleId, now, later);
  }

  /** With the intended reconciler the first login of a new user is granted
      with the record it creates, making the same write the current version
      makes. */
  lemma IntendedFirstLoginGranted(body: Option<Credentials>, cfg: Option<Config>, idp: Idp,
                                  users: seq<AdminUser>, nextId: nat, repr: RolesRepr, rows: seq<Row>,
                                  fetch: RoleFetch, defaultRoleId: int, now: string,
                                  createJwt: AdminUser -> string, session: Session, p: Profile)
    requires AuthenticateCurrent(body, cfg, idp) == Authenticated(p)
    requires FindByEmail(users, p.email).None?
    ensures var run := LoginIntendedRun(body, cfg, idp, users, nextId, repr, Ok(rows), fetch, defaultRoleId, now, createJwt, session);
      var u := NewUser(nextId, p, ResolvedRolesCurrent(FetchUserRolesCurrent(p.sub, fetch), rows, defaultRoleId), repr, now);
      && run.reply == Granted(createJwt(u), View(u), None)
      && run.session == session.(user := Some(u))
      && run.writes == [Insert(u)]
      && run.writes == LoginCurrentRun(body, cfg, idp, users, nextId, repr, Ok(rows), fetch, defaultRoleId, now, createJwt, session).writes
  {
  }
}
