/**
 * The admin email page (`EmailAdmin.jsx`): the same selection handlers as the staff page, the
 * submit guards, the result panel it fills, and the reset button.
 */
module FrontEmailAdmin {
  import opened Wrappers
  import opened Seqs
  import opened EmailRoutes
  import opened FrontSelection

  const SelectOne: string := "Veuillez sélectionner au moins un étudiant"
  const FillAllFields: string := "Veuillez remplir tous les champs"
  const SendEmailsError: string := "Erreur lors de l'envoi des emails"

  /** The result panel: success with the reply's message and the reply, or failure with an error message. */
  datatype SendResult = SendResult(success: bool, message: string, details: Option<Report>)

  /** The panel after a send that got this response (`error.response?.data?.error` or the default). */
  function ResultOf(response: Response): (r: SendResult)
    ensures r.success <==> response.Delivered?
    ensures response.Delivered? ==> r.message == response.report.message && r.details == Some(response.report)
    ensures response.Refused? && response.error != "" ==> r.message == response.error
    ensures response.Unreachable? || (response.Refused? && response.error == "") ==> r.message == SendEmailsError
    ensures !r.success ==> r.details.None? && r.message != ""
  {
    match response
    case Delivered(report) => SendResult(true, report.message, Some(report))
    case Refused(error) => SendResult(false, if error != "" then error else SendEmailsError, None)
    case Unreachable(_) => SendResult(false, SendEmailsError, None)
  }

  class EmailAdminPage {
    var students: seq<string>
    var selected: seq<string>
    var selectAll: bool
    var subject: string
    var message: string
    var result: Option<SendResult>

    constructor ()
      ensures students == [] && selected == [] && !selectAll && subject == "" && message == "" && result.None?
    {
      students, selected, selectAll := [], [], false;
      subject, message, result := "", "", None;
    }

    /** `loadStudents`: the listed ids; a failed request only raises an alert. */
    method Loaded(loaded: Option<seq<string>>)
      modifies this
      ensures students == (if loaded.Some? then loaded.value else old(students))
      ensures selected == old(selected) && selectAll == old(selectAll)
      ensures subject == old(subject) && message == old(message) && result == old(result)
    {
      if loaded.Some? {
        students := loaded.value;
      }
    }

    /** `handleSelectAll`. */
    method SelectAll()
      modifies this
      ensures (selected, selectAll) == SelectAllStep(old(selectAll), students)
      ensures students == old(students) && subject == old(subject) && message == old(message) && result == old(result)
    {
      if selectAll {
        selected := [];
      } else {
        selected := students;
      }
      selectAll := !selectAll;
    }

    /** `handleSelectStudent`: only the selection changes, never the select-all flag. */
    method SelectStudent(id: string)
      modifies this
      ensures selected == Toggle(old(selected), id)
      ensures selectAll == old(selectAll)
      ensures students == old(students) && subject == old(subject) && message == old(message) && result == old(result)
    {
      if id in selected {
        selected := Filter(selected, NotId(id));
      } else {
        selected := selected + [id];
      }
    }

    /**
     * `handleSubmit`: no request without a selected student or without both fields (the alert
     * is returned); otherwise the request is sent and the panel shows its outcome. A delivered
     * send also clears the form, the selection and the flag.
     */
    method Submit(response: Response) returns (request: Option<SendRequest>, alert: Option<string>)
      modifies this
      ensures old(selected) == [] ==> request.None? && alert == Some(SelectOne)
      ensures old(selected) != [] && (old(subject) == "" || old(message) == "") ==>
        request.None? && alert == Some(FillAllFields)
      ensures request.Some? <==> old(selected) != [] && old(subject) != "" && old(message) != ""
      ensures request.Some? ==> (request.value == SendRequest(old(selected), old(subject), old(message)) &&
        alert.None? && result == Some(ResultOf(response)))
      ensures request.Some? && response.Delivered? ==> selected == [] && !selectAll && subject == "" && message == ""
      ensures request.None? ==> result == old(result)
      ensures request.None? || !response.Delivered? ==>
        selected == old(selected) && selectAll == old(selectAll) && subject == old(subject) && message == old(message)
      ensures students == old(students)
    {
      if selected == [] {
        return None, Some(SelectOne);
      }
      if subject == "" || message == "" {
        return None, Some(FillAllFields);
      }
      result := None;
      request := Some(SendRequest(selected, subject, message));
      result := Some(ResultOf(response));
      if response.Delivered? {
        subject, message := "", "";
        selected := [];
        selectAll := false;
      }
      alert := None;
    }

    /** The reset button: form, selection, flag and result all cleared. */
    method Reset()
      modifies this
      ensures subject == "" && message == "" && selected == [] && !selectAll && result.None?
      ensures students == old(students)
    {
      subject, message := "", "";
      selected := [];
      selectAll := false;
      result := None;
    }
  }
}
