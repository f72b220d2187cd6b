/**
 * The role helpers of the web client (`lib/roles.js`). A signed-in user is reduced to the
 * `role` entry of its public metadata, None when the entry is absent.
 */
module FrontRoles {
  import opened Wrappers

  /** The `ROLES` table. */
  const Admin: string := "admin"
  const Manager: string := "manager"
  const Student: string := "student"

  datatype ClerkUser = ClerkUser(role: Option<string>)

  /** `hasRole(user, role)`: false without a user; otherwise strict equality of the roles. */
  predicate HasRole(user: Option<ClerkUser>, role: Option<string>)
    ensures HasRole(user, role) ==> user.Some?
  {
    user.Some? && user.value.role == role
  }

  /** `hasAnyRole(user, roles)`: false without a user; otherwise the user's role is listed. */
  predicate HasAnyRole(user: Option<ClerkUser>, roles: seq<string>)
    ensures HasAnyRole(user, roles) <==> exists i :: 0 <= i < |roles| && HasRole(user, Some(roles[i]))
    ensures roles == [] ==> !HasAnyRole(user, roles)
  {
    user.Some? && user.value.role.Some? && user.value.role.value in roles
  }

  /** `getUserRole(user)`: the role, or null when there is no user or the role is missing or empty. */
  function GetUserRole(user: Option<ClerkUser>): (r: Option<string>)
    ensures r.Some? <==> user.Some? && user.value.role.Some? && user.value.role.value != ""
    ensures r.Some? ==> r.value != "" && HasRole(user, r)
  {
    if user.Some? && user.value.role.Some? && user.value.role.value != "" then user.value.role else None
  }

  /** A user passes `hasRole` for one role only. */
  lemma HasRoleUnique(user: Option<ClerkUser>, r1: Option<string>, r2: Option<string>)
    requires HasRole(user, r1) && HasRole(user, r2)
    ensures r1 == r2
  {
  }

  /** A one-role list asks the same as the role itself. */
  lemma HasAnyRoleSingleton(user: Option<ClerkUser>, r: string)
    ensures HasAnyRole(user, [r]) <==> HasRole(user, Some(r))
  {
  }

  /** A longer list admits at least the users the shorter one does. */
  lemma HasAnyRoleMonotone(user: Option<ClerkUser>, roles: seq<string>, more: seq<string>)
    requires forall r :: r in roles ==> r in more
    ensures HasAnyRole(user, roles) ==> HasAnyRole(user, more)
  {
  }

  /** A role check passes exactly for the role `getUserRole` reports, when that is non-empty. */
  lemma HasRoleAgreesWithGetUserRole(user: Option<ClerkUser>, r: string)
    requires r != ""
    ensures HasRole(user, Some(r)) <==> GetUserRole(user) == Some(r)
  {
  }
}
