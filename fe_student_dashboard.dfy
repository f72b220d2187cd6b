/**
 * The student's own dashboard (`StudentDashboard.jsx`): loading the profile and the grades
 * with the token kept in local storage, logging out, changing the password, and the chart of
 * the most recent grades. The summary figures are those of `FrontMyGrades`. Local storage is
 * the pair of fields `token` and `studentData`; navigation is the last path navigated to; the
 * replies of the requests are parameters.
 */
module FrontStudentDashboard {
  import opened Wrappers
  import opened Seqs
  import opened Pagination
  import opened FrontMyGrades

  const StudentLogin: string := "/student-login"
  const MyProfilePath: string := "/api/student/my-profile"
  const MyGradesPath: string := "/api/student/my-grades"

  const Mismatch: string := "Les mots de passe ne correspondent pas"
  const TooShort: string := "Le mot de passe doit contenir au moins 6 caractères"
  const Changed: string := "Mot de passe modifié avec succès !"

  const RecentCount: nat := 8

  // ---------------------------------------------------------------------------
  // `recentGrades`

  function DateKey(g: MyGrade): real {
    g.date as real
  }

  /** `[...grades].sort((a, b) => new Date(b.date) - new Date(a.date))`: newest first. */
  function NewestFirst(grades: seq<MyGrade>): (r: seq<MyGrade>)
    ensures multiset(r) == multiset(grades) && |r| == |grades|
    ensures Sorted(r, Descending(DateKey))
  {
    DescendingTotal(DateKey);
    var r := SortBy(grades, Descending(DateKey));
    assert |r| == |multiset(r)| == |multiset(grades)| == |grades|;
    r
  }

  /**
   * `.slice(0, 8).reverse()` of the newest-first list: the eight most recent grades (all of
   * them when fewer), oldest first, none older than a grade left out.
   */
  function RecentGrades(grades: seq<MyGrade>): (r: seq<MyGrade>)
    ensures |r| == Min(RecentCount, |grades|)
    ensures r == Reverse(NewestFirst(grades)[..|r|])
    ensures multiset(r) <= multiset(grades)
    ensures Sorted(r, Ascending(DateKey))
    ensures forall i, j :: 0 <= i < |r| <= j < |grades| ==> r[i].date >= NewestFirst(grades)[j].date
  {
    var sorted := NewestFirst(grades);
    SliceHead(sorted, RecentCount);
    var head := Slice(sorted, 0, RecentCount);
    assert sorted == head + sorted[|head|..];
    assert multiset(sorted) == multiset(head) + multiset(sorted[|head|..]);
    var r := Reverse(head);
    ReverseMultiset(head);
    forall i | 0 <= i < |r| - 1 ensures DateKey(r[i]) <= DateKey(r[i + 1]) {
      SortedDescendingPairwise(sorted, DateKey, |head| - 2 - i, |head| - 1 - i);
    }
    forall i, j | 0 <= i < |r| <= j < |grades| ensures r[i].date >= sorted[j].date {
      SortedDescendingPairwise(sorted, DateKey, |head| - 1 - i, j);
    }
    r
  }

  datatype RecentPoint = RecentPoint(name: string, note: real)

  /** The chart rows: the course code or 'N/A', and the grade, in the order of `RecentGrades`. */
  function RecentPoints(grades: seq<MyGrade>): (points: seq<RecentPoint>)
    ensures |points| == |RecentGrades(grades)| <= RecentCount
    ensures forall i :: 0 <= i < |points| ==>
      points[i].note == RecentGrades(grades)[i].grade &&
      points[i].name == (if RecentGrades(grades)[i].courseCode != "" then RecentGrades(grades)[i].courseCode else "N/A")
  {
    var r := RecentGrades(grades);
    seq(|r|, i requires 0 <= i < |r| => RecentPoint(if r[i].courseCode != "" then r[i].courseCode else "N/A", r[i].grade))
  }

  // ---------------------------------------------------------------------------
  // `handleChangePassword`

  datatype PasswordForm = PasswordForm(currentPassword: string, newPassword: string, confirmPassword: string)

  const EmptyPasswordForm: PasswordForm := PasswordForm("", "", "")

  /** The checks made before any request: the confirmation first, then the length. */
  function PasswordCheck(f: PasswordForm): (error: Option<string>)
    ensures error.None? <==> f.newPassword == f.confirmPassword && |f.newPassword| >= 6
    ensures f.newPassword != f.confirmPassword ==> error == Some(Mismatch)
    ensures f.newPassword == f.confirmPassword && |f.newPassword| < 6 ==> error == Some(TooShort)
  {
    if f.newPassword != f.confirmPassword then Some(Mismatch)
    else if |f.newPassword| < 6 then Some(TooShort)
    else None
  }

  /** The emptied form is refused by the length check: a second submit right after a change sends nothing. */
  lemma EmptyFormRefused()
    ensures PasswordCheck(EmptyPasswordForm) == Some(TooShort)
  {
  }

  /** The request: the stored token (possibly absent) and the two passwords. */
  datatype PasswordRequest = PasswordRequest(token: Option<string>, currentPassword: string, newPassword: string)

  /**
   * The reply: success, an error reply carrying `error` (absent is ""), or a request that
   * threw, with its message.
   */
  datatype PasswordReply = PasswordChanged | PasswordRefused(error: string) | PasswordFailed(message: string)

  function PasswordAlert(reply: PasswordReply): (text: string)
    ensures reply.PasswordChanged? ==> text == Changed
    ensures reply.PasswordRefused? ==> text == reply.error
    ensures reply.PasswordFailed? ==> text == reply.message
  {
    match reply
    case PasswordChanged => Changed
    case PasswordRefused(error) => error
    case PasswordFailed(message) => message
  }

  // ---------------------------------------------------------------------------
  // the page

  datatype Profile = Profile(firstName: string, lastName: string, email: string, studentNumber: string)

  /** What a request came back with: an accepted reply, a reply that is not ok, or a throw. */
  datatype Fetch<T> = Accepted(value: T) | NotOk | Thrown

  /** `!token`: no token, or the empty one. */
  predicate HasToken(token: Option<string>) {
    token.Some? && token.value != ""
  }

  class StudentDashboardPage {
    var token: Option<string>
    var studentData: Option<string>
    var student: Option<Profile>
    var grades: seq<MyGrade>
    var loading: bool
    var showChangePassword: bool
    var passwordForm: PasswordForm
    var navigatedTo: Option<string>

    constructor (storedToken: Option<string>, storedData: Option<string>)
      ensures token == storedToken && studentData == storedData
      ensures student.None? && grades == [] && loading && !showChangePassword
      ensures passwordForm == EmptyPasswordForm && navigatedTo.None?
    {
      token, studentData := storedToken, storedData;
      student, grades, loading := None, [], true;
      showChangePassword, passwordForm, navigatedTo := false, EmptyPasswordForm, None;
    }

    /** Clears the stored token and data and goes to the login page. */
    method SignOut()
      modifies this
      ensures token.None? && studentData.None? && navigatedTo == Some(StudentLogin)
      ensures student == old(student) && grades == old(grades) && loading == old(loading)
      ensures showChangePassword == old(showChangePassword) && passwordForm == old(passwordForm)
    {
      token := None;
      studentData := None;
      navigatedTo := Some(StudentLogin);
    }

    /**
     * `loadStudentData`: without a token, straight to the login page and no request. Otherwise
     * the profile is requested; a profile reply that is not ok, or a throw, signs out. After an
     * accepted profile the grades are requested: accepted grades are shown, a reply that is not
     * ok is ignored, a throw signs out (the profile stays set). Loading ends in every case.
     */
    method Load(profile: Fetch<Profile>, loaded: Fetch<seq<MyGrade>>) returns (requests: seq<string>)
      modifies this
      ensures !HasToken(old(token)) ==> (requests == [] && navigatedTo == Some(StudentLogin) &&
        token == old(token) && studentData == old(studentData) && student == old(student) && grades == old(grades))
      ensures HasToken(old(token)) && !profile.Accepted? ==> (requests == [MyProfilePath] &&
        token.None? && studentData.None? && navigatedTo == Some(StudentLogin) &&
        student == old(student) && grades == old(grades))
      ensures HasToken(old(token)) && profile.Accepted? ==> (requests == [MyProfilePath, MyGradesPath] &&
        student == Some(profile.value) &&
        grades == (if loaded.Accepted? then loaded.value else old(grades)))
      ensures HasToken(old(token)) && profile.Accepted? && loaded.Thrown? ==>
        token.None? && studentData.None? && navigatedTo == Some(StudentLogin)
      ensures HasToken(old(token)) && profile.Accepted? && !loaded.Thrown? ==>
        token == old(token) && studentData == old(studentData) && navigatedTo == old(navigatedTo)
      ensures !loading
      ensures showChangePassword == old(showChangePassword) && passwordForm == old(passwordForm)
    {
      if !HasToken(token) {
        navigatedTo := Some(StudentLogin);
        loading := false;
        return [];
      }
      requests := [MyProfilePath];
      if !profile.Accepted? {
        SignOut();
        loading := false;
        return;
      }
      student := Some(profile.value);
      requests := requests + [MyGradesPath];
      if loaded.Accepted? {
        grades := loaded.value;
      } else if loaded.Thrown? {
        SignOut();
      }
      loading := false;
    }

    /** `handleLogout`. */
    method Logout()
      modifies this
      ensures token.None? && studentData.None? && navigatedTo == Some(StudentLogin)
      ensures student == old(student) && grades == old(grades) && loading == old(loading)
      ensures showChangePassword == old(showChangePassword) && passwordForm == old(passwordForm)
    {
      SignOut();
    }

    /** The "change password" button opens the form; the backdrop and the cancel button close it. */
    method ShowPasswordForm(shown: bool)
      modifies this
      ensures showChangePassword == shown
      ensures token == old(token) && studentData == old(studentData) && student == old(student)
      ensures grades == old(grades) && passwordForm == old(passwordForm) && navigatedTo == old(navigatedTo) &&
        loading == old(loading)
    {
      showChangePassword := shown;
    }

    /**
     * `handleChangePassword`: a form that fails the checks sends nothing and alerts the check's
     * message; otherwise the request is sent and its reply alerted. Only a success closes the
     * form and empties it.
     */
    method ChangePassword(reply: PasswordReply) returns (request: Option<PasswordRequest>, alert: string)
      modifies this
      ensures PasswordCheck(old(passwordForm)).Some? ==> (request.None? &&
        alert == PasswordCheck(old(passwordForm)).value)
      ensures request.Some? <==> PasswordCheck(old(passwordForm)).None?
      ensures request.Some? ==> (alert == PasswordAlert(reply) &&
        request.value == PasswordRequest(token, old(passwordForm).currentPassword, old(passwordForm).newPassword))
      ensures request.Some? && reply.PasswordChanged? ==> !showChangePassword && passwordForm == EmptyPasswordForm
      ensures request.None? || !reply.PasswordChanged? ==>
        showChangePassword == old(showChangePassword) && passwordForm == old(passwordForm)
      ensures token == old(token) && studentData == old(studentData) && student == old(student)
      ensures grades == old(grades) && navigatedTo == old(navigatedTo) && loading == old(loading)
    {
      var check := PasswordCheck(passwordForm);
      if check.Some? {
        return None, check.value;
      }
      request := Some(PasswordRequest(token, passwordForm.currentPassword, passwordForm.newPassword));
      if reply.PasswordChanged? {
        showChangePassword := false;
        passwordForm := EmptyPasswordForm;
      }
      alert := PasswordAlert(reply);
    }
  }
}
