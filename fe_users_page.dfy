/**
 * The user administration page (`Users.jsx`): the role filter, the per-role counts, the role
 * badge, the page of ten, and the edit, submit and delete handlers. Missing text fields are
 * ""; the signed-in user's Clerk id and the answers to `window.confirm` are parameters.
 */
module FrontUsersPage {
  import opened Wrappers
  import opened Seqs
  import opened Pagination

  const ItemsPerPage: nat := 10

  const AllRoles: string := "all"

  datatype UserItem = UserItem(id: string, clerkId: string, firstName: string, lastName: string, email: string, role: string)

  /** `user?.publicMetadata?.role || 'etudiant'`: the page loads and shows users only for 'administrateur'. */
  function IsAdmin(role: Option<string>): (admin: bool)
    ensures admin <==> role == Some("administrateur")
  {
    var r := if role.Some? && role.value != "" then role.value else "etudiant";
    r == "administrateur"
  }

  function RoleIs(role: string): (p: UserItem -> bool)
    ensures forall u :: p(u) <==> u.role == role
  {
    (u: UserItem) => u.role == role
  }

  /** The role filter: every user for 'all', otherwise exactly the users with that role, in order. */
  function FilterByRole(users: seq<UserItem>, roleFilter: string): (r: seq<UserItem>)
    ensures roleFilter == AllRoles ==> r == users
    ensures roleFilter != AllRoles ==> forall u :: u in r <==> u in users && u.role == roleFilter
    ensures IsSubsequence(r, users)
  {
    if roleFilter == AllRoles then
      SubsequenceRefl(users);
      users
    else
      var p := RoleIs(roleFilter);
      forall u ensures u in Filter(users, p) <==> u in users && p(u) {
        FilterMembership(users, p, u);
      }
      FilterIsSubsequence(users, p);
      Filter(users, p)
  }

  datatype Stats = Stats(total: nat, admins: nat, scolarite: nat, etudiants: nat)

  /** Three roles that differ are counted at most once each in total. */
  lemma {:induction false} DisjointCounts(users: seq<UserItem>, a: string, b: string, c: string)
    requires a != b && b != c && a != c
    ensures Count(users, RoleIs(a)) + Count(users, RoleIs(b)) + Count(users, RoleIs(c)) <= |users|
    decreases |users|
  {
    if users != [] {
      DisjointCounts(users[1..], a, b, c);
    }
  }

  /** `stats`: the number of users and of each of three roles; the three never exceed the total. */
  function StatsOf(users: seq<UserItem>): (s: Stats)
    ensures s.total == |users|
    ensures s.admins == Count(users, RoleIs("administrateur"))
    ensures s.scolarite == Count(users, RoleIs("scolarite"))
    ensures s.etudiants == Count(users, RoleIs("etudiant"))
    ensures s.admins + s.scolarite + s.etudiants <= s.total
  {
    DisjointCounts(users, "administrateur", "scolarite", "etudiant");
    Stats(|users|, Count(users, RoleIs("administrateur")), Count(users, RoleIs("scolarite")),
          Count(users, RoleIs("etudiant")))
  }

  const VisitorBadge: string := "bg-gray-100 dark:bg-gray-900/20 text-gray-700 dark:text-gray-400"

  const RoleBadges: map<string, string> := map[
    "administrateur" := "bg-red-100 dark:bg-red-900/20 text-red-700 dark:text-red-400",
    "scolarite" := "bg-purple-100 dark:bg-purple-900/20 text-purple-700 dark:text-purple-400",
    "etudiant" := "bg-blue-100 dark:bg-blue-900/20 text-blue-700 dark:text-blue-400",
    "visiteur" := VisitorBadge]

  /** `getRoleBadge`: the role's style, or the visitor's for a role without one. */
  function RoleBadge(role: string): (badge: string)
    ensures role in RoleBadges ==> badge == RoleBadges[role]
    ensures role !in RoleBadges ==> badge == VisitorBadge
    ensures badge in RoleBadges.Values
  {
    assert RoleBadges["visiteur"] == VisitorBadge;
    if role in RoleBadges then RoleBadges[role] else VisitorBadge
  }

  /** The items of page `page` (from 1): at most ten consecutive listed users. */
  function CurrentItems(filtered: seq<UserItem>, page: nat): (items: seq<UserItem>)
    ensures |items| <= ItemsPerPage
    ensures 1 <= page <= TotalPages(|filtered|, ItemsPerPage) ==>
      items == filtered[(page - 1) * ItemsPerPage..Min(page * ItemsPerPage, |filtered|)] && items != []
  {
    if 1 <= page <= TotalPages(|filtered|, ItemsPerPage) then
      PageNonEmpty(filtered, page, ItemsPerPage);
      Page(filtered, page, ItemsPerPage)
    else
      Page(filtered, page, ItemsPerPage)
  }

  /** What `handleDelete` does: refuse one's own account, stop when not confirmed, or request the deletion. */
  datatype DeleteOutcome = SelfDeleteRefused | Cancelled | DeleteRequested(id: string)

  /** `handleDelete`: one's own account is refused before anything is asked. */
  function Delete(target: UserItem, currentClerkId: string, confirmed: bool): (o: DeleteOutcome)
    ensures target.clerkId == currentClerkId <==> o == SelfDeleteRefused
    ensures o.DeleteRequested? <==> target.clerkId != currentClerkId && confirmed
    ensures o.DeleteRequested? ==> o.id == target.id
  {
    if target.clerkId == currentClerkId then SelfDeleteRefused
    else if !confirmed then Cancelled
    else DeleteRequested(target.id)
  }

  datatype UserForm = UserForm(firstName: string, lastName: string, email: string, role: string)

  const EmptyForm: UserForm := UserForm("", "", "", "visiteur")

  class UsersPage {
    var users: seq<UserItem>
    var filteredUsers: seq<UserItem>
    var roleFilter: string
    var currentPage: nat
    var showModal: bool
    var editing: Option<UserItem>
    var form: UserForm

    constructor ()
      ensures users == [] && filteredUsers == [] && roleFilter == AllRoles && currentPage == 1
      ensures !showModal && editing.None? && form == EmptyForm
    {
      users, filteredUsers, roleFilter := [], [], AllRoles;
      currentPage := 1;
      showModal, editing, form := false, None, EmptyForm;
    }

    /** The filter effect: the role filter applied, and page 1. */
    method RunFilterEffect()
      modifies this
      ensures filteredUsers == FilterByRole(users, roleFilter) && currentPage == 1
      ensures users == old(users) && roleFilter == old(roleFilter)
      ensures showModal == old(showModal) && editing == old(editing) && form == old(form)
    {
      if roleFilter == AllRoles {
        filteredUsers := users;
      } else {
        filteredUsers := Filter(users, RoleIs(roleFilter));
      }
      currentPage := 1;
    }

    method SetRoleFilter(r: string)
      modifies this
      ensures roleFilter == r && filteredUsers == FilterByRole(users, r) && currentPage == 1
      ensures users == old(users) && showModal == old(showModal) && editing == old(editing) && form == old(form)
    {
      roleFilter := r;
      RunFilterEffect();
    }

    /** `loadUsers`: the loaded list (empty when the request failed), then the effect again. */
    method Loaded(loaded: Option<seq<UserItem>>)
      modifies this
      ensures users == (if loaded.Some? then loaded.value else [])
      ensures filteredUsers == FilterByRole(users, roleFilter) && currentPage == 1
      ensures roleFilter == old(roleFilter) && showModal == old(showModal) && editing == old(editing) && form == old(form)
    {
      users := if loaded.Some? then loaded.value else [];
      RunFilterEffect();
    }

    /** `handleOpenModal`: the form takes the user's fields, the role 'visiteur' when absent. */
    method OpenModal(u: UserItem)
      modifies this
      ensures editing == Some(u) && showModal
      ensures form == UserForm(u.firstName, u.lastName, u.email, if u.role != "" then u.role else "visiteur")
      ensures users == old(users) && filteredUsers == old(filteredUsers)
      ensures roleFilter == old(roleFilter) && currentPage == old(currentPage)
    {
      editing := Some(u);
      form := UserForm(u.firstName, u.lastName, u.email, if u.role != "" then u.role else "visiteur");
      showModal := true;
    }

    /** `handleCloseModal`: closed, nothing edited, the empty form. */
    method CloseModal()
      modifies this
      ensures !showModal && editing.None? && form == EmptyForm
      ensures users == old(users) && filteredUsers == old(filteredUsers)
      ensures roleFilter == old(roleFilter) && currentPage == old(currentPage)
    {
      showModal := false;
      editing := None;
      form := EmptyForm;
    }

    /**
     * `handleSubmit`: nothing without an edited user; changing one's own role needs a
     * confirmation; then the whole form is sent. A success closes the modal, and `selfNotice`
     * says whether the one's-own-role notice is shown; a failure changes nothing.
     */
    method Submit(currentClerkId: string, confirmed: bool, succeeded: bool)
      returns (call: Option<(string, UserForm)>, selfNotice: bool)
      modifies this
      ensures old(editing).None? ==> call.None?
      ensures (old(editing).Some? && old(editing).value.clerkId == currentClerkId &&
        old(form).role != old(editing).value.role && !confirmed) ==> call.None?
      ensures call.Some? <==> (old(editing).Some? &&
        (old(editing).value.clerkId != currentClerkId || old(form).role == old(editing).value.role || confirmed))
      ensures call.Some? ==> call.value == (old(editing).value.id, old(form))
      ensures selfNotice <==> call.Some? && succeeded && old(editing).value.clerkId == currentClerkId
      ensures call.Some? && succeeded ==> !showModal && editing.None? && form == EmptyForm
      ensures call.None? || !succeeded ==> showModal == old(showModal) && editing == old(editing) && form == old(form)
      ensures users == old(users) && filteredUsers == old(filteredUsers)
      ensures roleFilter == old(roleFilter) && currentPage == old(currentPage)
    {
      selfNotice := false;
      if editing.None? {
        return None, false;
      }
      var target := editing.value;
      if target.clerkId == currentClerkId && form.role != target.role && !confirmed {
        return None, false;
      }
      call := Some((target.id, form));
      if succeeded {
        CloseModal();
        selfNotice := target.clerkId == currentClerkId;
      }
    }
  }
}
