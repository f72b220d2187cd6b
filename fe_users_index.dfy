/**
 * The Clerk user list (`pages/users/index.jsx`): the avatar initials, the date cells, the list
 * taken from the fetched reply, and the edit sheet it opens. Date formatting (`Intl`) is a
 * parameter; a refetch is counted.
 */
module FrontUsersIndex {
  import opened Wrappers
  import opened Text
  import opened FrontUserRoleForm

  /** `name?.[0] || ""`: the first character, or nothing for a missing or empty name. */
  function FirstChar(name: Option<string>): (r: string)
    ensures |r| <= 1
    ensures name.Some? && name.value != "" ==> r == [name.value[0]]
    ensures name.None? || name.value == "" ==> r == ""
  {
    if name.Some? && name.value != "" then [name.value[0]] else ""
  }

  /**
   * `getUserInitials`: the first characters of the two names, upper-cased; "U" when both
   * names are missing or empty.
   */
  function Initials(firstName: Option<string>, lastName: Option<string>): (r: string)
    ensures 1 <= |r| <= 2
    ensures FirstChar(firstName) + FirstChar(lastName) == "" ==> r == "U"
    ensures FirstChar(firstName) + FirstChar(lastName) != "" ==> r == Upper(FirstChar(firstName) + FirstChar(lastName))
    ensures (firstName.Some? && firstName.value != "") ==> r[0] == UpperChar(firstName.value[0])
    ensures (firstName.None? || firstName.value == "") && lastName.Some? && lastName.value != "" ==>
      r == [UpperChar(lastName.value[0])]
  {
    var both := FirstChar(firstName) + FirstChar(lastName);
    if Upper(both) != "" then Upper(both) else "U"
  }

  /** `formatDate`: "N/A" for a missing or zero timestamp, the formatted date otherwise. */
  function FormatDate(timestamp: Option<int>, format: int -> string): (r: string)
    ensures timestamp.None? || timestamp.value == 0 ==> r == "N/A"
    ensures timestamp.Some? && timestamp.value != 0 ==> r == format(timestamp.value)
  {
    if timestamp.None? || timestamp.value == 0 then "N/A" else format(timestamp.value)
  }

  /** The reply of `useFetchData("/users")`: None before it arrives or on error. */
  datatype UsersReply = UsersReply(data: Option<seq<ListedUser>>)

  /** `response?.data || []`. */
  function Users(response: Option<UsersReply>): (users: seq<ListedUser>)
    ensures response.Some? && response.value.data.Some? ==> users == response.value.data.value
    ensures response.None? || response.value.data.None? ==> users == []
  {
    if response.Some? && response.value.data.Some? then response.value.data.value else []
  }

  class UsersIndexPage {
    var selectedUser: Option<ListedUser>
    var sheetOpen: bool
    var refetches: nat

    constructor ()
      ensures selectedUser.None? && !sheetOpen && refetches == 0
    {
      selectedUser, sheetOpen, refetches := None, false, 0;
    }

    /** `handleEdit`: the user is selected and the sheet opened. */
    method Edit(u: ListedUser)
      modifies this
      ensures selectedUser == Some(u) && sheetOpen && refetches == old(refetches)
    {
      selectedUser := Some(u);
      sheetOpen := true;
    }

    /** `onOpenChange`, the sheet's own open and close. */
    method OpenChange(open: bool)
      modifies this
      ensures sheetOpen == open && selectedUser == old(selectedUser) && refetches == old(refetches)
    {
      sheetOpen := open;
    }

    /**
     * A submit of the sheet: `onSuccess` (`handleSuccess`) refetches the list whatever role it
     * is given, and the close request shuts the sheet. The selected user stays.
     */
    method SheetSubmitted(outcome: Outcome)
      modifies this
      ensures refetches == old(refetches) + (if outcome.success.Some? then 1 else 0)
      ensures sheetOpen == (if outcome.closes then false else old(sheetOpen))
      ensures selectedUser == old(selectedUser)
    {
      if outcome.success.Some? {
        refetches := refetches + 1;
      }
      if outcome.closes {
        OpenChange(false);
      }
    }
  }

  /**
   * A submit from the sheet opened on a listed user hands its id and the sheet's role to the
   * page, which then refetches once and closes the sheet.
   */
  method EditAndSubmit(page: UsersIndexPage, sheet: RoleSheet, u: ListedUser) returns (outcome: Outcome)
    modifies page, sheet
    ensures outcome.success == Some((u.id, InitialRole(u)))
    ensures page.selectedUser == Some(u) && !page.sheetOpen && page.refetches == old(page.refetches) + 1
  {
    page.Edit(u);
    sheet.UserChanged(page.selectedUser);
    outcome := sheet.Submit(page.selectedUser, true);
    page.SheetSubmitted(outcome);
  }
}
