/** The permission gate in front of the plugin's admin routes: 401 without a
    session user, 403 without a matching permission, 500 on any exception,
    otherwise the next handler. */
module PermissionGate {
  import opened Common
  import opened Host

  datatype Decision = Unauthorized(message: string) | Forbidden(message: string) | Next | InternalServerError(message: string)

  const NotAuthenticatedMessage := "User is not authenticated."
  const VerifyFailedMessage := "Failed to verify permissions."

  function DeniedMessage(requiredPermission: string): string
  {
    "Access denied. Missing permission: " + requiredPermission
  }

  /** `roles.map(role => role.id)` without the elements that have no `id`. */
  function RoleIds(roles: seq<RoleRef>): (ids: seq<int>)
    ensures forall x :: x in ids <==> RoleObject(x) in roles
  {
    if |roles| == 0 then []
    else
      var rest := RoleIds(roles[1..]);
      assert forall x :: RoleObject(x) in roles <==> roles[0] == RoleObject(x) || RoleObject(x) in roles[1..];
      OptionList(RoleIdOf(roles[0])) + rest
  }

  function OptionList(o: Option<int>): seq<int>
  {
    if o.Some? then [o.value] else []
  }

  /** `const [roleId] = roles.map(role => role.id)`, undefined ids dropped. */
  function FirstRoleId(roles: seq<RoleRef>): seq<int>
  {
    if |roles| == 0 then [] else OptionList(RoleIdOf(roles[0]))
  }

  /** Number of permission rows with this action held by one of the roles. */
  function CountGranting(perms: seq<Permission>, roleIds: seq<int>, action: string): (n: nat)
    ensures n > 0 <==> exists i :: 0 <= i < |perms| && perms[i].action == action && perms[i].role in roleIds
    ensures n <= |perms|
  {
    if |perms| == 0 then 0
    else
      var rest := CountGranting(perms[1..], roleIds, action);
      assert (exists i :: 0 <= i < |perms[1..]| && perms[1..][i].action == action && perms[1..][i].role in roleIds) ==>
             (exists i :: 0 <= i < |perms| && perms[i].action == action && perms[i].role in roleIds) by {
        if exists i :: 0 <= i < |perms[1..]| && perms[1..][i].action == action && perms[1..][i].role in roleIds {
          var i :| 0 <= i < |perms[1..]| && perms[1..][i].action == action && perms[1..][i].role in roleIds;
          assert perms[i + 1] == perms[1..][i];
        }
      }
      (if perms[0].action == action && perms[0].role in roleIds then 1 else 0) + rest
  }

  /** Some permission row grants `action` to one of `roleIds`. */
  ghost predicate Granted(perms: seq<Permission>, roleIds: seq<int>, action: string)
  {
    exists i :: 0 <= i < |perms| && perms[i].action == action && perms[i].role in roleIds
  }

  /** The gate over a user slot and a chosen list of role ids. `perms` is the
      permission table as the query reads it, or the error it throws. */
  function Gate(user: Option<AdminUser>, roleIds: AdminUser -> seq<int>, requiredPermission: string,
                perms: Result<seq<Permission>, JsError>): Decision
  {
    if user.None? then Unauthorized(NotAuthenticatedMessage)
    else if perms.Err? then InternalServerError(VerifyFailedMessage)
    else if CountGranting(perms.value, roleIds(user.value), requiredPermission) == 0 then Forbidden(DeniedMessage(requiredPermission))
    else Next
  }

  /** Current gate: `session.user`, first role id only. */
  function CheckCurrent(session: Session, requiredPermission: string, perms: Result<seq<Permission>, JsError>): (d: Decision)
    ensures session.user.None? ==> d == Unauthorized(NotAuthenticatedMessage)
    ensures session.user.Some? && perms.Err? ==> d == InternalServerError(VerifyFailedMessage)
    ensures d == Next <==> (session.user.Some? && perms.Ok? &&
                            Granted(perms.value, FirstRoleId(session.user.value.roles), requiredPermission))
    ensures d.Forbidden? ==> d.message == DeniedMessage(requiredPermission)
  {
    Gate(session.user, (u: AdminUser) => FirstRoleId(u.roles), requiredPermission, perms)
  }

  /** Older gate: `session.adminUser`, every role id. */
  function CheckLegacy(session: Session, requiredPermission: string, perms: Result<seq<Permission>, JsError>): (d: Decision)
    ensures session.adminUser.None? ==> d == Unauthorized(NotAuthenticatedMessage)
    ensures session.adminUser.Some? && perms.Err? ==> d == InternalServerError(VerifyFailedMessage)
    ensures d == Next <==> (session.adminUser.Some? && perms.Ok? &&
                            exists i :: 0 <= i < |perms.value| && perms.value[i].action == requiredPermission &&
                                        RoleObject(perms.value[i].role) in session.adminUser.value.roles)
    ensures d.Forbidden? ==> d.message == DeniedMessage(requiredPermission)
  {
    Gate(session.adminUser, (u: AdminUser) => RoleIds(u.roles), requiredPermission, perms)
  }

  /** Bundled gate: `session.user`, every role id. */
  function CheckBundled(session: Session, requiredPermission: string, perms: Result<seq<Permission>, JsError>): (d: Decision)
    ensures session.user.None? ==> d == Unauthorized(NotAuthenticatedMessage)
    ensures session.user.Some? && perms.Err? ==> d == InternalServerError(VerifyFailedMessage)
    ensures d == Next <==> (session.user.Some? && perms.Ok? &&
                            exists i :: 0 <= i < |perms.value| && perms.value[i].action == requiredPermission &&
                                        RoleObject(perms.value[i].role) in session.user.value.roles)
    ensures d.Forbidden? ==> d.message == DeniedMessage(requiredPermission)
  {
    Gate(session.user, (u: AdminUser) => RoleIds(u.roles), requiredPermission, perms)
  }

  /** The current gate looks at the first role only: users that agree on it
      get the same answer, whatever their other roles. */
  lemma OnlyFirstRoleMatters(s1: Session, s2: Session, requiredPermission: string, perms: Result<seq<Permission>, JsError>)
    requires s1.user.Some? && s2.user.Some?
    requires |s1.user.value.roles| > 0 && |s2.user.value.roles| > 0
    requires s1.user.value.roles[0] == s2.user.value.roles[0]
    ensures CheckCurrent(s1, requiredPermission, perms) == CheckCurrent(s2, requiredPermission, perms)
  {
  }

  /** Whatever the current gate lets through, the bundled gate lets through. */
  lemma CurrentNextImpliesBundledNext(session: Session, requiredPermission: string, perms: Result<seq<Permission>, JsError>)
    ensures CheckCurrent(session, requiredPermission, perms) == Next ==> CheckBundled(session, requiredPermission, perms) == Next
  {
    if CheckCurrent(session, requiredPermission, perms) == Next {
      var roles := session.user.value.roles;
      var i :| 0 <= i < |perms.value| && perms.value[i].action == requiredPermission &&
               perms.value[i].role in FirstRoleId(roles);
      assert roles[0] == RoleObject(perms.value[i].role);
    }
  }

  /** A user whose second role holds the permission is refused by the
      current gate and admitted by the bundled and older gates. */
  lemma SecondRoleOnlyCountedByAllIdGates(u: AdminUser, rest: map<string, string>)
    requires u.roles == [RoleObject(1), RoleObject(2)]
    ensures CheckCurrent(Session(Some(u), None, rest), "plugin::access", Ok([Permission(2, "plugin::access")]))
            == Forbidden(DeniedMessage("plugin::access"))
    ensures CheckBundled(Session(Some(u), None, rest), "plugin::access", Ok([Permission(2, "plugin::access")])) == Next
    ensures CheckLegacy(Session(None, Some(u), rest), "plugin::access", Ok([Permission(2, "plugin::access")])) == Next
  {
    assert FirstRoleId(u.roles) == [1];
    assert RoleObject(2) in u.roles;
  }

  /** The current and bundled gates read `session.user`, the older one
      `session.adminUser`: a session filled by one login version is refused
      by the gate of the other. */
  lemma SessionSlotsDiffer(u: AdminUser, rest: map<string, string>, requiredPermission: string,
                           perms: Result<seq<Permission>, JsError>)
    ensures CheckLegacy(Session(Some(u), None, rest), requiredPermission, perms) == Unauthorized(NotAuthenticatedMessage)
    ensures CheckCurrent(Session(None, Some(u), rest), requiredPermission, perms) == Unauthorized(NotAuthenticatedMessage)
  {
  }
}
