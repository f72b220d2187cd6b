/**
 * The recipient selection shared, line for line, by the two send-email pages (`SendEmail.jsx`
 * and `EmailAdmin.jsx`): toggling one student id and the select-all switch; and what the
 * send request can come back with.
 */
module FrontSelection {
  import opened Seqs
  import opened EmailRoutes

  function NotId(id: string): (p: string -> bool)
    ensures forall x :: p(x) <==> x != id
  {
    (x: string) => x != id
  }

  /**
   * `handleSelectStudent`: a selected id is removed (every copy of it), any other is appended;
   * no other id changes.
   */
  function Toggle(selected: seq<string>, id: string): (r: seq<string>)
    ensures id in r <==> id !in selected
    ensures forall x :: x != id ==> (x in r <==> x in selected)
    ensures id !in selected ==> r == selected + [id]
    ensures id in selected ==> IsSubsequence(r, selected)
  {
    if id in selected then
      forall x ensures x in Filter(selected, NotId(id)) <==> x in selected && x != id {
        FilterMembership(selected, NotId(id), x);
      }
      FilterIsSubsequence(selected, NotId(id));
      Filter(selected, NotId(id))
    else
      selected + [id]
  }

  /**
   * Toggling the same id twice gives back the same selected ids; when the id was not selected,
   * it gives back the very same list.
   */
  lemma ToggleTwice(selected: seq<string>, id: string)
    ensures forall x :: x in Toggle(Toggle(selected, id), id) <==> x in selected
    ensures id !in selected ==> Toggle(Toggle(selected, id), id) == selected
  {
    if id !in selected {
      FilterAppend(selected, [id], NotId(id));
      FilterAll(selected, NotId(id));
      assert Filter([id], NotId(id)) == [];
    }
  }

  /** `handleSelectAll`: the flag flips; from unset every id is selected, from set none is. */
  function SelectAllStep(selectAll: bool, all: seq<string>): (r: (seq<string>, bool))
    ensures r.1 == !selectAll
    ensures selectAll ==> r.0 == []
    ensures !selectAll ==> r.0 == all
  {
    (if selectAll then [] else all, !selectAll)
  }

  /** Two clicks on select-all from the unset flag end with nothing selected and the flag unset. */
  lemma SelectAllTwice(all: seq<string>)
    ensures SelectAllStep(SelectAllStep(false, all).1, all) == ([], false)
  {
  }

  /** The request both pages send. */
  datatype SendRequest = SendRequest(studentIds: seq<string>, subject: string, message: string)

  /**
   * What the request came back with: the report of `send-to-students`, an error reply with
   * its `error` field ("" when absent), or no reply at all (with the error's message).
   */
  datatype Response = Delivered(report: Report) | Refused(error: string) | Unreachable(reason: string)
}
