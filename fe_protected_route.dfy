/**
 * The stand-alone route guard component (`ProtectedRoute.jsx`): it waits for the identity
 * client, sends a visitor who is not signed in to the login page, and sends a signed-in user
 * without the one required role to the dashboard.
 */
module FrontProtectedRoute {
  import opened Wrappers

  datatype Screen = Loading | NavigateTo(path: string) | Children

  /**
   * The screen for a load state, a sign-in state, the user's role and the optional required
   * role (`roleRequired &&` ignores an empty requirement).
   */
  function Guard(isLoaded: bool, isSignedIn: bool, userRole: Option<string>, roleRequired: Option<string>): (s: Screen)
    ensures !isLoaded ==> s == Loading
    ensures isLoaded && !isSignedIn ==> s == NavigateTo("/login")
    ensures (isLoaded && isSignedIn && roleRequired.Some? && roleRequired.value != "" &&
      userRole != roleRequired) ==> s == NavigateTo("/dashboard")
    ensures s == Children <==> (isLoaded && isSignedIn &&
      (roleRequired.None? || roleRequired.value == "" || userRole == roleRequired))
  {
    if !isLoaded then Loading
    else if !isSignedIn then NavigateTo("/login")
    else if roleRequired.Some? && roleRequired.value != "" && userRole != roleRequired then NavigateTo("/dashboard")
    else Children
  }

  /** Without a required role every signed-in user gets the children, whatever the role. */
  lemma NoRequirementAdmitsAll(userRole: Option<string>)
    ensures Guard(true, true, userRole, None) == Children
  {
  }

  /** A guarded screen reached by one role is reached by no other. */
  lemma RequirementExcludesOthers(r1: Option<string>, r2: Option<string>, required: string)
    requires required != "" && r1 != r2
    ensures !(Guard(true, true, r1, Some(required)) == Children && Guard(true, true, r2, Some(required)) == Children)
  {
  }
}
