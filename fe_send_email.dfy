/**
 * The staff send-email page (`SendEmail.jsx`): who may use it, the selection handlers and the
 * submit guards. The page reads the count for its success alert from a `results` field that
 * the `send-to-students` reply does not have (its list is `details`), so a delivered send
 * resets the form and then shows the error alert; the model keeps that.
 */
module FrontSendEmail {
  import opened Wrappers
  import opened Seqs
  import opened EmailRoutes
  import opened FrontSelection

  const SelectOne: string := "Veuillez sélectionner au moins un étudiant"
  const FillSubjectAndMessage: string := "Veuillez remplir le sujet et le message"
  const SendError: string := "Erreur lors de l'envoi"

  /** `user?.publicMetadata?.role || 'etudiant'` is 'administrateur' or 'scolarite'. */
  function CanSend(role: Option<string>): (can: bool)
    ensures can <==> role == Some("administrateur") || role == Some("scolarite")
  {
    var r := if role.Some? && role.value != "" then role.value else "etudiant";
    r == "administrateur" || r == "scolarite"
  }

  /** The alert after a submit: a message, or the type error of reading `results.filter` on a reply without `results`. */
  datatype Notice = Alert(text: string) | MissingResultsError

  /**
   * The alert that follows a send that got this response: a delivered report has no `results`
   * to count, however many emails went out.
   */
  function SendNotice(response: Response): (n: Notice)
    ensures response.Delivered? ==> n == MissingResultsError
    ensures response.Refused? ==> n == Alert(if response.error != "" then response.error else SendError)
    ensures response.Unreachable? ==> n == Alert(response.reason)
  {
    match response
    case Delivered(_) => MissingResultsError
    case Refused(error) => Alert(if error != "" then error else SendError)
    case Unreachable(reason) => Alert(reason)
  }

  class SendEmailPage {
    var students: seq<string>
    var selected: seq<string>
    var selectAll: bool
    var subject: string
    var message: string
    var result: Option<Report>

    constructor ()
      ensures students == [] && selected == [] && !selectAll && subject == "" && message == "" && result.None?
    {
      students, selected, selectAll := [], [], false;
      subject, message, result := "", "", None;
    }

    /** `loadStudents` (run only when the user can send): the loaded ids, none when the request failed. */
    method Loaded(loaded: Option<seq<string>>)
      modifies this
      ensures students == (if loaded.Some? then loaded.value else [])
      ensures selected == old(selected) && selectAll == old(selectAll)
      ensures subject == old(subject) && message == old(message) && result == old(result)
    {
      students := if loaded.Some? then loaded.value else [];
    }

    /** `handleSelectAll`. */
    method SelectAll()
      modifies this
      ensures (selected, selectAll) == SelectAllStep(old(selectAll), students)
      ensures students == old(students) && subject == old(subject) && message == old(message) && result == old(result)
    {
      if selectAll {
        selected := [];
      } else {
        selected := students;
      }
      selectAll := !selectAll;
    }

    /** `handleSelectStudent`: only the selection changes, never the select-all flag. */
    method SelectStudent(id: string)
      modifies this
      ensures selected == Toggle(old(selected), id)
      ensures selectAll == old(selectAll)
      ensures students == old(students) && subject == old(subject) && message == old(message) && result == old(result)
    {
      if id in selected {
        selected := Filter(selected, NotId(id));
      } else {
        selected := selected + [id];
      }
    }

    /**
     * `handleSubmit`: no request without a selected student or without both subject and
     * message; otherwise the result is cleared and the request sent. A delivered send stores
     * the report and clears subject, message, selection and flag; any other outcome leaves them.
     */
    method Submit(response: Response) returns (request: Option<SendRequest>, notice: Notice)
      modifies this
      ensures old(selected) == [] ==> request.None? && notice == Alert(SelectOne)
      ensures old(selected) != [] && (old(subject) == "" || old(message) == "") ==>
        request.None? && notice == Alert(FillSubjectAndMessage)
      ensures request.Some? <==> old(selected) != [] && old(subject) != "" && old(message) != ""
      ensures request.Some? ==> (request.value == SendRequest(old(selected), old(subject), old(message)) &&
        notice == SendNotice(response))
      ensures request.Some? && response.Delivered? ==>
        result == Some(response.report) && selected == [] && !selectAll && subject == "" && message == ""
      ensures request.Some? && !response.Delivered? ==> result.None?
      ensures request.None? ==> result == old(result)
      ensures request.None? || !response.Delivered? ==>
        selected == old(selected) && selectAll == old(selectAll) && subject == old(subject) && message == old(message)
      ensures students == old(students)
    {
      if selected == [] {
        return None, Alert(SelectOne);
      }
      if subject == "" || message == "" {
        return None, Alert(FillSubjectAndMessage);
      }
      result := None;
      request := Some(SendRequest(selected, subject, message));
      if response.Delivered? {
        result := Some(response.report);
        subject, message := "", "";
        selected := [];
        selectAll := false;
      }
      notice := SendNotice(response);
    }
  }
}
