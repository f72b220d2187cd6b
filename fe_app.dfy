/**
 * The route table of the web client (`App.jsx`): the `ProtectedRoute` wrapper defined there,
 * `RoleBasedRedirect`, and the allow-list of each page under the main layout. The role is the
 * `role` entry of the signed-in user's public metadata, None when absent.
 */
module FrontApp {
  import opened Wrappers
  import opened Model

  const PublicPath: string := "/public"
  const DashboardPath: string := "/dashboard"
  const SignInPath: string := "/sign-in"

  /** What a route renders: the spinner, a redirect, nothing (`SignedIn` when signed out) or its page. */
  datatype Screen = Spinner | NavigateTo(path: string) | Blank | Render

  /** `!userRole || userRole === 'visiteur'`. */
  predicate NoAccess(role: Option<string>)
    ensures role.Some? && role.value in [Etudiant, Scolarite, Administrateur] ==> !NoAccess(role)
  {
    role.None? || role.value == "" || role.value == Visiteur
  }

  /** The `ProtectedRoute` of this file: spinner, then /public for visitors and unlisted roles. */
  function ProtectedRoute(isLoaded: bool, role: Option<string>, allowedRoles: Option<seq<string>>): (s: Screen)
    ensures !isLoaded ==> s == Spinner
    ensures isLoaded && NoAccess(role) ==> s == NavigateTo(PublicPath)
    ensures s == Render <==> (isLoaded && !NoAccess(role) && (allowedRoles.None? || role.value in allowedRoles.value))
    ensures s != Render && isLoaded ==> s == NavigateTo(PublicPath)
  {
    if !isLoaded then Spinner
    else if NoAccess(role) then NavigateTo(PublicPath)
    else if allowedRoles.Some? && role.value !in allowedRoles.value then NavigateTo(PublicPath)
    else Render
  }

  /** `RoleBasedRedirect`: visitors to /public, everyone else to the dashboard. */
  function RoleBasedRedirect(isLoaded: bool, role: Option<string>): (s: Screen)
    ensures !isLoaded ==> s == Spinner
    ensures isLoaded ==> s == NavigateTo(if NoAccess(role) then PublicPath else DashboardPath)
  {
    if !isLoaded then Spinner
    else if NoAccess(role) then NavigateTo(PublicPath)
    else NavigateTo(DashboardPath)
  }

  /** The root path: signed in, `RoleBasedRedirect`; signed out, the sign-in page. */
  function Root(signedIn: bool, isLoaded: bool, role: Option<string>): (s: Screen)
    ensures !signedIn ==> s == NavigateTo(SignInPath)
    ensures signedIn ==> s == RoleBasedRedirect(isLoaded, role)
  {
    if signedIn then RoleBasedRedirect(isLoaded, role) else NavigateTo(SignInPath)
  }

  /** A directly reachable root redirect never lands on a page a listed role could not open. */
  lemma RootSendsVisitorsToPublic(isLoaded: bool, role: Option<string>)
    ensures Root(true, isLoaded, role) == NavigateTo(DashboardPath) <==>
      isLoaded && ProtectedRoute(isLoaded, role, None) == Render
  {
  }

  datatype Page = Dashboard | Students | Courses | Grades | MyGrades | Users | SendEmail | ContactAdmin | About

  /** The `allowedRoles` of each page's own `ProtectedRoute`; None for pages without one. */
  function AllowedRoles(p: Page): (r: Option<seq<string>>)
    ensures p in {Dashboard, Courses, About} <==> r.None?
  {
    match p
    case Students => Some([Administrateur, Scolarite])
    case Grades => Some([Administrateur, Scolarite])
    case SendEmail => Some([Administrateur, Scolarite])
    case MyGrades => Some([Etudiant])
    case ContactAdmin => Some([Etudiant])
    case Users => Some([Administrateur])
    case _ => None
  }

  /** A page under the main layout: `SignedIn`, the layout's guard, then the page's own guard. */
  function PageScreen(signedIn: bool, isLoaded: bool, role: Option<string>, p: Page): (s: Screen)
    ensures !signedIn ==> s == Blank
    ensures signedIn && ProtectedRoute(isLoaded, role, None) != Render ==> s == ProtectedRoute(isLoaded, role, None)
  {
    if !signedIn then Blank
    else
      var outer := ProtectedRoute(isLoaded, role, None);
      if outer != Render then outer else ProtectedRoute(isLoaded, role, AllowedRoles(p))
  }

  /** Who reaches each page: the allow-lists of the route table, for a loaded, signed-in user. */
  lemma PageAccess(role: Option<string>, p: Page)
    ensures p in {Students, Grades, SendEmail} ==>
      (PageScreen(true, true, role, p) == Render <==> role == Some(Administrateur) || role == Some(Scolarite))
    ensures p in {MyGrades, ContactAdmin} ==> (PageScreen(true, true, role, p) == Render <==> role == Some(Etudiant))
    ensures p == Users ==> (PageScreen(true, true, role, p) == Render <==> role == Some(Administrateur))
    ensures p in {Dashboard, Courses, About} ==> (PageScreen(true, true, role, p) == Render <==> !NoAccess(role))
  {
  }

  /** No page renders for a visitor, and the student pages and the staff pages share no role. */
  lemma StaffAndStudentPagesDisjoint(role: Option<string>, staff: Page, student: Page)
    requires staff in {Students, Grades, SendEmail, Users} && student in {MyGrades, ContactAdmin}
    ensures !(PageScreen(true, true, role, staff) == Render && PageScreen(true, true, role, student) == Render)
    ensures forall p :: NoAccess(role) ==> PageScreen(true, true, role, p) == NavigateTo(PublicPath)
  {
    PageAccess(role, staff);
    PageAccess(role, student);
  }
}
