/**
 * The side menu of the main layout (`MainLayout.jsx`): every entry carries a `show` flag
 * computed from the role, and the menu keeps the shown entries in their order.
 */
module FrontMainLayout {
  import opened Wrappers
  import opened Seqs
  import opened Model

  datatype NavItem = NavItem(name: string, href: string, show: bool)

  /** `user?.publicMetadata?.role || 'etudiant'`. */
  function EffectiveRole(role: Option<string>): (r: string)
    ensures r != ""
    ensures role.Some? && role.value != "" ==> r == role.value
    ensures role.None? || role.value == "" ==> r == Etudiant
  {
    if role.Some? && role.value != "" then role.value else Etudiant
  }

  /** The `navigation` array for the three role flags. */
  function NavigationFor(isAdmin: bool, isScolarite: bool, isStudent: bool): (nav: seq<NavItem>)
    ensures |nav| == 9
  {
    [ NavItem("Dashboard", "/dashboard", true),
      NavItem("Étudiants", "/students", isAdmin || isScolarite),
      NavItem("Cours", "/courses", true),
      NavItem("Notes", "/grades", isAdmin || isScolarite),
      NavItem("Mes Notes", "/my-grades", isStudent),
      NavItem("Utilisateurs", "/users", isAdmin),
      NavItem("Envoyer Email", "/send-email", isAdmin || isScolarite),
      NavItem("Contacter Admin", "/contact-admin", isStudent),
      NavItem("À propos", "/about", true) ]
  }

  /** The `navigation` array for a role: `isAdmin`, `isScolarite` and `isStudent` compare the effective role. */
  function Navigation(role: Option<string>): (nav: seq<NavItem>)
    ensures |nav| == 9
  {
    var r := EffectiveRole(role);
    NavigationFor(r == Administrateur, r == Scolarite, r == Etudiant)
  }

  function IsShown(item: NavItem): bool {
    item.show
  }

  /** `filteredNavigation`: the shown entries, in the order of the array. */
  function FilteredNavigation(role: Option<string>): (menu: seq<NavItem>)
    ensures forall item :: item in menu <==> item in Navigation(role) && item.show
  {
    var menu := Filter(Navigation(role), IsShown);
    forall item ensures item in menu <==> item in Navigation(role) && item.show {
      FilterMembership(Navigation(role), IsShown, item);
    }
    menu
  }

  /** The menu keeps the array's order. */
  lemma MenuKeepsOrder(role: Option<string>)
    ensures IsSubsequence(FilteredNavigation(role), Navigation(role))
  {
    FilterIsSubsequence(Navigation(role), IsShown);
  }

  function Names(menu: seq<NavItem>): (names: seq<string>)
    ensures |names| == |menu|
  {
    Map(menu, (item: NavItem) => item.name)
  }

  /** The menu of each kind of role, written out. */
  function ExpectedMenu(r: string): (names: seq<string>)
    ensures "Dashboard" in names && "Cours" in names && "À propos" in names
  {
    if r == Administrateur then
      ["Dashboard", "Étudiants", "Cours", "Notes", "Utilisateurs", "Envoyer Email", "À propos"]
    else if r == Scolarite then
      ["Dashboard", "Étudiants", "Cours", "Notes", "Envoyer Email", "À propos"]
    else if r == Etudiant then
      ["Dashboard", "Cours", "Mes Notes", "Contacter Admin", "À propos"]
    else
      ["Dashboard", "Cours", "À propos"]
  }

  /** The shown names for the flags of each kind of role. */
  lemma AdminMenu()
    ensures Names(Filter(NavigationFor(true, false, false), IsShown)) == ExpectedMenu(Administrateur)
  {
  }

  lemma ScolariteMenu()
    ensures Names(Filter(NavigationFor(false, true, false), IsShown)) == ExpectedMenu(Scolarite)
  {
  }

  lemma StudentMenu()
    ensures Names(Filter(NavigationFor(false, false, true), IsShown)) == ExpectedMenu(Etudiant)
  {
  }

  lemma OtherMenu()
    ensures Names(Filter(NavigationFor(false, false, false), IsShown)) == ExpectedMenu(Visiteur)
  {
  }

  /**
   * The menu shows Dashboard, Cours and À propos to everyone; Étudiants, Notes and Envoyer
   * Email to administrators and the registrar's office; Utilisateurs to administrators; Mes
   * Notes and Contacter Admin to students, which a missing role counts as.
   */
  lemma MenuByRole(role: Option<string>)
    ensures Names(FilteredNavigation(role)) == ExpectedMenu(EffectiveRole(role))
  {
    var r := EffectiveRole(role);
    if r == Administrateur {
      AdminMenu();
    } else if r == Scolarite {
      ScolariteMenu();
    } else if r == Etudiant {
      StudentMenu();
    } else {
      OtherMenu();
      assert ExpectedMenu(r) == ExpectedMenu(Visiteur);
      assert Navigation(role) == NavigationFor(false, false, false);
    }
  }
}
