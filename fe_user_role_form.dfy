/**
 * The role sheet of the Clerk user list (`components/users/user-role-form.jsx`): the label of
 * each role in the drop-down, the role the sheet starts from, and the submit handler, whose
 * request is only a simulated wait. The sheet's parent receives `onSuccess` and
 * `onOpenChange(false)` as the outcome of a submit.
 */
module FrontUserRoleForm {
  import opened Wrappers
  import opened Text
  import opened FrontRoles

  /** A user of the Clerk list; a missing text field is None. */
  datatype ListedUser = ListedUser(
    id: string, firstName: Option<string>, lastName: Option<string>,
    createdAt: Option<int>, lastSignInAt: Option<int>, role: Option<string>)

  function CapitalizeAll(words: seq<string>): (r: seq<string>)
    ensures |r| == |words|
    ensures forall i :: 0 <= i < |words| ==> r[i] == Capitalize(words[i])
  {
    seq(|words|, i requires 0 <= i < |words| => Capitalize(words[i]))
  }

  /** Capitalising keeps a string free of `_`. */
  lemma CapitalizeAvoids(w: string)
    requires '_' !in w
    ensures '_' !in Capitalize(w)
  {
    if w != "" {
      assert Capitalize(w) == [UpperChar(w[0])] + w[1..];
      assert w[0] != '_' && w[0] in w;
      forall k | 1 <= k < |w| ensures w[k] != '_' {
        assert w[k] in w;
      }
    }
  }

  /** The segments of a role between its `_`, each with its first character upper-cased. */
  function RoleWords(role: string): (words: seq<string>)
    ensures |words| == |Split(role, '_')| == CountChar(role, '_') + 1
    ensures forall i :: 0 <= i < |words| ==> words[i] == Capitalize(Split(role, '_')[i])
    ensures forall i :: 0 <= i < |words| ==> '_' !in words[i]
  {
    var parts := Split(role, '_');
    SplitLength(role, '_');
    forall i | 0 <= i < |parts| ensures '_' !in Capitalize(parts[i]) {
      CapitalizeAvoids(parts[i]);
    }
    CapitalizeAll(parts)
  }

  /**
   * The label of a role: its words joined by spaces. It has no `_`, and when the role has no
   * space, the label's space-separated words are exactly the capitalised segments.
   */
  function RoleLabel(role: string): (shown: string)
    ensures '_' !in shown
    ensures shown == Join(RoleWords(role), " ")
    ensures (forall i :: 0 <= i < |role| ==> role[i] != ' ') ==> Split(shown, ' ') == RoleWords(role)
  {
    var words := RoleWords(role);
    JoinAvoids(words, " ", '_');
    if forall i :: 0 <= i < |role| ==> role[i] != ' ' then
      SpacesKept(role, words);
      SplitJoin(words, ' ');
      Join(words, " ")
    else
      Join(words, " ")
  }

  /** A role free of spaces has capitalised segments free of spaces. */
  lemma SpacesKept(role: string, words: seq<string>)
    requires forall i :: 0 <= i < |role| ==> role[i] != ' '
    requires words == RoleWords(role)
    ensures forall i :: 0 <= i < |words| ==> ' ' !in words[i]
  {
    var parts := Split(role, '_');
    forall i | 0 <= i < |words| ensures ' ' !in words[i] {
      SplitChars(role, '_', i);
      var w := parts[i];
      if w != "" {
        assert words[i] == [UpperChar(w[0])] + w[1..];
        forall k | 0 <= k < |w| ensures w[k] != ' ' {
          assert w[k] in role;
        }
      }
    }
  }

  /** Every character of a segment is a character of the split string. */
  lemma {:induction false} SplitChars(s: string, sep: char, i: int)
    requires 0 <= i < |Split(s, sep)|
    ensures forall c :: c in Split(s, sep)[i] ==> c in s
    decreases |s|
  {
    if s != [] {
      if s[0] == sep {
        if i > 0 {
          SplitChars(s[1..], sep, i - 1);
        }
      } else {
        SplitChars(s[1..], sep, i);
      }
    }
  }

  /** The three roles of the table are shown as 'Admin', 'Manager' and 'Student'. */
  lemma TableLabels()
    ensures RoleLabel(Admin) == "Admin"
    ensures RoleLabel(Manager) == "Manager"
    ensures RoleLabel(Student) == "Student"
  {
    SingleWordLabel(Admin);
    SingleWordLabel(Manager);
    SingleWordLabel(Student);
    CapitalizeLower(Admin, "Admin");
    CapitalizeLower(Manager, "Manager");
    CapitalizeLower(Student, "Student");
  }

  /** A word starting with a lower-case letter, capitalised, is the same word with that letter upper-cased. */
  lemma CapitalizeLower(w: string, upper: string)
    requires |w| == |upper| > 0 && 'a' <= w[0] <= 'z' && upper[0] == (w[0] as int - 32) as char
    requires w[1..] == upper[1..]
    ensures Capitalize(w) == upper
  {
    assert upper == [upper[0]] + upper[1..];
  }

  /** A role without `_` is shown capitalised. */
  lemma SingleWordLabel(role: string)
    requires '_' !in role
    ensures RoleLabel(role) == Capitalize(role)
  {
    SplitFree(role, '_');
    assert RoleWords(role) == [Capitalize(role)];
  }

  /** The role the sheet shows for a user: its metadata role, `student` when absent or empty. */
  function InitialRole(u: ListedUser): (role: string)
    ensures u.role.Some? && u.role.value != "" ==> role == u.role.value
    ensures u.role.None? || u.role.value == "" ==> role == Student
    ensures role != ""
  {
    if u.role.Some? && u.role.value != "" then u.role.value else Student
  }

  const FailedToast: string := "Failed to update user role"

  function UpdatedToast(role: string): (text: string)
    ensures |text| > |role| && text[|text| - |role|..] == role
  {
    "Role updated to " + role
  }

  /**
   * What a submit hands back: the toasts shown, the arguments given to `onSuccess`, and whether
   * the sheet asks to be closed.
   */
  datatype Outcome = Outcome(toasts: seq<string>, success: Option<(string, string)>, closes: bool)

  class RoleSheet {
    var role: string
    var loading: bool

    constructor ()
      ensures role == "" && !loading
    {
      role, loading := "", false;
    }

    /** The effect on a new `user`: its initial role; no user leaves the role as it was. */
    method UserChanged(user: Option<ListedUser>)
      modifies this
      ensures user.Some? ==> role == InitialRole(user.value)
      ensures user.None? ==> role == old(role)
      ensures loading == old(loading)
    {
      if user.Some? {
        role := InitialRole(user.value);
      }
    }

    method SelectRole(r: string)
      modifies this
      ensures role == r && loading == old(loading)
    {
      role := r;
    }

    /**
     * `handleSubmit`: after the wait, the success toast; then `onSuccess(user.id, role)` when
     * the parent gave one, and the request to close. Reading `user.id` without a user throws,
     * which shows the failure toast and keeps the sheet open.
     */
    method Submit(user: Option<ListedUser>, hasOnSuccess: bool) returns (outcome: Outcome)
      modifies this
      ensures hasOnSuccess && user.None? ==> outcome == Outcome([UpdatedToast(old(role)), FailedToast], None, false)
      ensures hasOnSuccess && user.Some? ==> outcome == Outcome([UpdatedToast(old(role))], Some((user.value.id, old(role))), true)
      ensures !hasOnSuccess ==> outcome == Outcome([UpdatedToast(old(role))], None, true)
      ensures role == old(role) && !loading
    {
      loading := true;
      var toasts := [UpdatedToast(role)];
      if hasOnSuccess {
        if user.None? {
          loading := false;
          return Outcome(toasts + [FailedToast], None, false);
        }
        outcome := Outcome(toasts, Some((user.value.id, role)), true);
      } else {
        outcome := Outcome(toasts, None, true);
      }
      loading := false;
    }
  }
}
