/**
 * The students page (`Students.jsx`): the live search over the loaded students, the page of
 * eight, and the form's submit and edit handlers. Requests are returned as values, and
 * whether one succeeded is a parameter; the reload that follows a save is left to `Loaded`.
 */
module FrontStudentsPage {
  import opened Wrappers
  import opened Text
  import opened Seqs
  import opened Pagination

  const ItemsPerPage: nat := 8

  datatype StudentItem = StudentItem(id: string, firstName: string, lastName: string, email: string, studentNumber: string)

  /** One of the four fields, lowercased, contains the (lowercased) query. */
  predicate MatchesQuery(s: StudentItem, query: string)
    ensures query == "" ==> MatchesQuery(s, query)
  {
    Contains(Lower(s.firstName), query) || Contains(Lower(s.lastName), query) ||
    Contains(Lower(s.email), query) || Contains(Lower(s.studentNumber), query)
  }

  function QueryMatcher(query: string): (p: StudentItem -> bool)
    ensures forall s :: p(s) == MatchesQuery(s, query)
  {
    (s: StudentItem) => MatchesQuery(s, query)
  }

  /**
   * The search effect's list: every student for a blank query, otherwise the students
   * matching the lowercased query, in list order.
   */
  function SearchStudents(students: seq<StudentItem>, searchQuery: string): (r: seq<StudentItem>)
    ensures IsBlank(searchQuery) ==> r == students
    ensures forall s :: s in r <==> s in students && (IsBlank(searchQuery) || MatchesQuery(s, Lower(searchQuery)))
    ensures IsSubsequence(r, students)
  {
    if IsBlank(searchQuery) then
      SubsequenceRefl(students);
      students
    else
      var p := QueryMatcher(Lower(searchQuery));
      forall s ensures s in Filter(students, p) <==> s in students && p(s) {
        FilterMembership(students, p, s);
      }
      FilterIsSubsequence(students, p);
      Filter(students, p)
  }

  /** The items of page `page` (from 1): at most eight consecutive listed students. */
  function CurrentItems(filtered: seq<StudentItem>, page: nat): (items: seq<StudentItem>)
    ensures |items| <= ItemsPerPage
    ensures 1 <= page <= TotalPages(|filtered|, ItemsPerPage) ==>
      items == filtered[(page - 1) * ItemsPerPage..Min(page * ItemsPerPage, |filtered|)] && items != []
  {
    if 1 <= page <= TotalPages(|filtered|, ItemsPerPage) then
      PageNonEmpty(filtered, page, ItemsPerPage);
      Page(filtered, page, ItemsPerPage)
    else
      Page(filtered, page, ItemsPerPage)
  }

  datatype StudentForm = StudentForm(firstName: string, lastName: string, email: string)

  const EmptyForm: StudentForm := StudentForm("", "", "")

  /** The requests `handleSubmit` makes; both send the whole form. */
  datatype ApiCall = UpdateStudentCall(id: string, form: StudentForm) | CreateStudentCall(form: StudentForm)

  class StudentsPage {
    var students: seq<StudentItem>
    var filteredStudents: seq<StudentItem>
    var searchQuery: string
    var currentPage: nat
    var showModal: bool
    var editing: Option<StudentItem>
    var form: StudentForm

    constructor ()
      ensures students == [] && filteredStudents == [] && searchQuery == "" && currentPage == 1
      ensures !showModal && editing.None? && form == EmptyForm
    {
      students, filteredStudents, searchQuery := [], [], "";
      currentPage := 1;
      showModal, editing, form := false, None, EmptyForm;
    }

    /**
     * The search effect: a blank query lists every student and keeps the page; any other
     * query lists the matches and goes back to page 1.
     */
    method RunSearchEffect()
      modifies this
      ensures filteredStudents == SearchStudents(students, searchQuery)
      ensures currentPage == if IsBlank(searchQuery) then old(currentPage) else 1
      ensures students == old(students) && searchQuery == old(searchQuery)
      ensures showModal == old(showModal) && editing == old(editing) && form == old(form)
    {
      if IsBlank(searchQuery) {
        filteredStudents := students;
      } else {
        filteredStudents := Filter(students, QueryMatcher(Lower(searchQuery)));
        currentPage := 1;
      }
    }

    method SetSearchQuery(q: string)
      modifies this
      ensures searchQuery == q && filteredStudents == SearchStudents(students, q)
      ensures currentPage == if IsBlank(q) then old(currentPage) else 1
      ensures students == old(students) && showModal == old(showModal) && editing == old(editing) && form == old(form)
    {
      searchQuery := q;
      RunSearchEffect();
    }

    /** `loadStudents`: the loaded list (empty when the request failed), then the effect again. */
    method Loaded(loaded: Option<seq<StudentItem>>)
      modifies this
      ensures students == (if loaded.Some? then loaded.value else [])
      ensures filteredStudents == SearchStudents(students, searchQuery)
      ensures currentPage == if IsBlank(searchQuery) then old(currentPage) else 1
      ensures searchQuery == old(searchQuery) && showModal == old(showModal) && editing == old(editing) && form == old(form)
    {
      students := if loaded.Some? then loaded.value else [];
      filteredStudents := students;
      RunSearchEffect();
    }

    /** `handleEdit`: the form takes the student's names and email, and opens. */
    method Edit(s: StudentItem)
      modifies this
      ensures editing == Some(s) && form == StudentForm(s.firstName, s.lastName, s.email) && showModal
      ensures students == old(students) && filteredStudents == old(filteredStudents)
      ensures searchQuery == old(searchQuery) && currentPage == old(currentPage)
    {
      editing := Some(s);
      form := StudentForm(s.firstName, s.lastName, s.email);
      showModal := true;
    }

    /**
     * `handleSubmit`: always one request, an update of the edited student or a creation; a
     * success closes the modal and empties the form, a failure changes nothing.
     */
    method Submit(succeeded: bool) returns (call: ApiCall)
      modifies this
      ensures old(editing).Some? ==> call == UpdateStudentCall(old(editing).value.id, old(form))
      ensures old(editing).None? ==> call == CreateStudentCall(old(form))
      ensures succeeded ==> !showModal && editing.None? && form == EmptyForm
      ensures !succeeded ==> showModal == old(showModal) && editing == old(editing) && form == old(form)
      ensures students == old(students) && filteredStudents == old(filteredStudents)
      ensures searchQuery == old(searchQuery) && currentPage == old(currentPage)
    {
      if editing.Some? {
        call := UpdateStudentCall(editing.value.id, form);
      } else {
        call := CreateStudentCall(form);
      }
      if succeeded {
        showModal := false;
        editing := None;
        form := EmptyForm;
      }
    }
  }
}
