/** Entities owned by the host admin framework that the plugin reads or
    writes: admin roles, admin permissions, admin users, the request session
    and the controller replies. */
module Host {
  import opened Common

  /** A row of `admin::role`. */
  datatype AdminRole = AdminRole(id: int, code: string, name: string)

  /** A row of `admin::permission`: which role holds which action. */
  datatype Permission = Permission(role: int, action: string)

  /** One element of a user's `roles` as a read returns it: the bare role id
      as written, or the populated role object `{ id, ... }`. */
  datatype RoleRef = BareId(id: int) | RoleObject(id: int)

  /** In which form the user store hands back the role relation of a user. */
  datatype RolesRepr = AsIds | AsObjects

  /** The role relation written from a list of role ids, as later reads return it. */
  function Refs(repr: RolesRepr, ids: seq<int>): (refs: seq<RoleRef>)
    ensures |refs| == |ids|
    ensures forall i :: 0 <= i < |ids| ==> refs[i].id == ids[i] && (refs[i].RoleObject? <==> repr == AsObjects)
  {
    if |ids| == 0 then []
    else (if repr == AsIds then [BareId(ids[0])] else [RoleObject(ids[0])]) + Refs(repr, ids[1..])
  }

  /** `role.id` read from each element of a user's roles: a bare number has
      no `id` property (`undefined`). */
  function RoleIdOf(r: RoleRef): Option<int>
  {
    match r
    case BareId(_) => None
    case RoleObject(id) => Some(id)
  }

  /** A row of `admin::user`. `blocked` is `undefined` unless the host set it. */
  datatype AdminUser = AdminUser(id: nat, email: string, firstname: string, lastname: string,
                                 username: string, isActive: bool, blocked: Option<bool>,
                                 roles: seq<RoleRef>, createdAt: string, updatedAt: string)

  /** The Koa session: the `user` slot (current plugin), the `adminUser`
      slot (older plugin) and whatever else the session holds. */
  datatype Session = Session(user: Option<AdminUser>, adminUser: Option<AdminUser>, rest: map<string, string>)

  /** `ctx.send(body)` or `ctx.badRequest(message)`. */
  datatype Reply<+T> = Send(body: T) | BadRequest(message: string)
}
