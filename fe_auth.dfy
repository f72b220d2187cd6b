/**
 * The route loaders of the web client (`lib/auth.js`). Waiting for the identity client to
 * load is left out: each guard receives the loaded user (None when nobody is signed in).
 * A thrown `redirect(path)` is `Redirect(path)`.
 */
module FrontAuth {
  import opened Wrappers
  import opened FrontRoles

  const LoginPath: string := "/login"
  const DashboardPath: string := "/dashboard"
  const UnauthorizedPath: string := "/unauthorized"

  datatype Guard<T> = Proceed(value: T) | Redirect(path: string)

  /** `requireAuth`: to the login page without a user; otherwise the user. */
  function RequireAuth(user: Option<ClerkUser>): (g: Guard<ClerkUser>)
    ensures g.Redirect? <==> user.None?
    ensures g.Redirect? ==> g.path == LoginPath
    ensures g.Proceed? ==> g.value == user.value
  {
    if user.None? then Redirect(LoginPath) else Proceed(user.value)
  }

  /** `redirectIfAuthenticated`: to the dashboard with a user; otherwise nothing. */
  function RedirectIfAuthenticated(user: Option<ClerkUser>): (g: Guard<()>)
    ensures g.Redirect? <==> user.Some?
    ensures g.Redirect? ==> g.path == DashboardPath
  {
    if user.Some? then Redirect(DashboardPath) else Proceed(())
  }

  /** `requireRole`: to the login page without a user, to /unauthorized for another role. */
  function RequireRole(user: Option<ClerkUser>, requiredRole: string): (g: Guard<ClerkUser>)
    ensures user.None? ==> g == Redirect(LoginPath)
    ensures user.Some? && !HasRole(user, Some(requiredRole)) ==> g == Redirect(UnauthorizedPath)
    ensures g.Proceed? <==> HasRole(user, Some(requiredRole))
    ensures g.Proceed? ==> g.value == user.value
  {
    if user.None? then Redirect(LoginPath)
    else if user.value.role != Some(requiredRole) then Redirect(UnauthorizedPath)
    else Proceed(user.value)
  }

  /** `requireAnyRole`: to the login page without a user, to /unauthorized for an unlisted role. */
  function RequireAnyRole(user: Option<ClerkUser>, allowedRoles: seq<string>): (g: Guard<ClerkUser>)
    ensures user.None? ==> g == Redirect(LoginPath)
    ensures user.Some? && !HasAnyRole(user, allowedRoles) ==> g == Redirect(UnauthorizedPath)
    ensures g.Proceed? <==> HasAnyRole(user, allowedRoles)
    ensures g.Proceed? ==> g.value == user.value
  {
    if user.None? then Redirect(LoginPath)
    else if !(user.value.role.Some? && user.value.role.value in allowedRoles) then Redirect(UnauthorizedPath)
    else Proceed(user.value)
  }

  /** The sign-in check comes first: without a user no role list, however wide, lets anyone through. */
  lemma SignInBeforeRole(requiredRole: string, allowedRoles: seq<string>)
    ensures RequireRole(None, requiredRole) == RequireAuth(None)
    ensures RequireAnyRole(None, allowedRoles) == RequireAuth(None)
  {
  }

  /** A one-role list guards exactly as the role itself. */
  lemma RequireAnyRoleSingleton(user: Option<ClerkUser>, r: string)
    ensures RequireAnyRole(user, [r]) == RequireRole(user, r)
  {
  }

  /** Whoever passes a role guard passes the plain sign-in guard with the same user. */
  lemma RoleGuardImpliesAuth(user: Option<ClerkUser>, allowedRoles: seq<string>)
    ensures RequireAnyRole(user, allowedRoles).Proceed? ==> RequireAuth(user) == RequireAnyRole(user, allowedRoles)
  {
  }
}
