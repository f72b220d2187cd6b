/**
 * The courses page (`Courses.jsx`): the live search over the loaded courses, the page of ten,
 * the form's defaults, and the new, edit and submit handlers. A missing description is "".
 */
module FrontCoursesPage {
  import opened Wrappers
  import opened Text
  import opened Seqs
  import opened Pagination

  const ItemsPerPage: nat := 10

  datatype CourseItem = CourseItem(id: string, code: string, name: string, description: string, credits: int)

  /** The name or code contains the query, or the description does when there is one. */
  predicate MatchesQuery(c: CourseItem, query: string)
    ensures query == "" ==> MatchesQuery(c, query)
  {
    Contains(Lower(c.name), query) || Contains(Lower(c.code), query) ||
    (c.description != "" && Contains(Lower(c.description), query))
  }

  function QueryMatcher(query: string): (p: CourseItem -> bool)
    ensures forall c :: p(c) == MatchesQuery(c, query)
  {
    (c: CourseItem) => MatchesQuery(c, query)
  }

  /**
   * The search effect's list: every course for a blank query, otherwise the matching courses,
   * in list order.
   */
  function SearchCourses(courses: seq<CourseItem>, searchQuery: string): (r: seq<CourseItem>)
    ensures IsBlank(searchQuery) ==> r == courses
    ensures forall c :: c in r <==> c in courses && (IsBlank(searchQuery) || MatchesQuery(c, Lower(searchQuery)))
    ensures IsSubsequence(r, courses)
  {
    if IsBlank(searchQuery) then
      SubsequenceRefl(courses);
      courses
    else
      var p := QueryMatcher(Lower(searchQuery));
      forall c ensures c in Filter(courses, p) <==> c in courses && p(c) {
        FilterMembership(courses, p, c);
      }
      FilterIsSubsequence(courses, p);
      Filter(courses, p)
  }

  /** A course without a description is found only through its name or code. */
  lemma NoDescriptionSearch(c: CourseItem, query: string)
    requires c.description == ""
    ensures MatchesQuery(c, query) <==> Contains(Lower(c.name), query) || Contains(Lower(c.code), query)
  {
  }

  /** The items of page `page` (from 1): at most ten consecutive listed courses. */
  function CurrentItems(filtered: seq<CourseItem>, page: nat): (items: seq<CourseItem>)
    ensures |items| <= ItemsPerPage
    ensures 1 <= page <= TotalPages(|filtered|, ItemsPerPage) ==>
      items == filtered[(page - 1) * ItemsPerPage..Min(page * ItemsPerPage, |filtered|)] && items != []
  {
    if 1 <= page <= TotalPages(|filtered|, ItemsPerPage) then
      PageNonEmpty(filtered, page, ItemsPerPage);
      Page(filtered, page, ItemsPerPage)
    else
      Page(filtered, page, ItemsPerPage)
  }

  datatype CourseForm = CourseForm(code: string, name: string, description: string, credits: int)

  /** The new-course form: empty texts and 3 credits. */
  const DefaultForm: CourseForm := CourseForm("", "", "", 3)

  /** `handleEdit`'s form: the course's fields, the description '' when absent. */
  function FormOf(c: CourseItem): (f: CourseForm)
    ensures f.code == c.code && f.name == c.name && f.credits == c.credits
    ensures f.description == c.description
  {
    CourseForm(c.code, c.name, c.description, c.credits)
  }

  /** The requests `handleSubmit` makes; both send the whole form. */
  datatype ApiCall = UpdateCourseCall(id: string, form: CourseForm) | CreateCourseCall(form: CourseForm)

  class CoursesPage {
    var courses: seq<CourseItem>
    var filteredCourses: seq<CourseItem>
    var searchQuery: string
    var currentPage: nat
    var showModal: bool
    var editing: Option<CourseItem>
    var form: CourseForm

    constructor ()
      ensures courses == [] && filteredCourses == [] && searchQuery == "" && currentPage == 1
      ensures !showModal && editing.None? && form == DefaultForm
    {
      courses, filteredCourses, searchQuery := [], [], "";
      currentPage := 1;
      showModal, editing, form := false, None, DefaultForm;
    }

    /** The search effect: a blank query lists every course and keeps the page; any other goes back to page 1. */
    method RunSearchEffect()
      modifies this
      ensures filteredCourses == SearchCourses(courses, searchQuery)
      ensures currentPage == if IsBlank(searchQuery) then old(currentPage) else 1
      ensures courses == old(courses) && searchQuery == old(searchQuery)
      ensures showModal == old(showModal) && editing == old(editing) && form == old(form)
    {
      if IsBlank(searchQuery) {
        filteredCourses := courses;
      } else {
        filteredCourses := Filter(courses, QueryMatcher(Lower(searchQuery)));
        currentPage := 1;
      }
    }

    method SetSearchQuery(q: string)
      modifies this
      ensures searchQuery == q && filteredCourses == SearchCourses(courses, q)
      ensures currentPage == if IsBlank(q) then old(currentPage) else 1
      ensures courses == old(courses) && showModal == old(showModal) && editing == old(editing) && form == old(form)
    {
      searchQuery := q;
      RunSearchEffect();
    }

    /** `loadCourses`: the loaded list (empty when the request failed), then the effect again. */
    method Loaded(loaded: Option<seq<CourseItem>>)
      modifies this
      ensures courses == (if loaded.Some? then loaded.value else [])
      ensures filteredCourses == SearchCourses(courses, searchQuery)
      ensures currentPage == if IsBlank(searchQuery) then old(currentPage) else 1
      ensures searchQuery == old(searchQuery) && showModal == old(showModal) && editing == old(editing) && form == old(form)
    {
      courses := if loaded.Some? then loaded.value else [];
      filteredCourses := courses;
      RunSearchEffect();
    }

    /** The add button: nothing edited, the default form, the modal open. */
    method OpenNew()
      modifies this
      ensures editing.None? && form == DefaultForm && showModal
      ensures courses == old(courses) && filteredCourses == old(filteredCourses)
      ensures searchQuery == old(searchQuery) && currentPage == old(currentPage)
    {
      editing := None;
      form := DefaultForm;
      showModal := true;
    }

    /** `handleEdit`: the form takes the course's fields, and opens. */
    method Edit(c: CourseItem)
      modifies this
      ensures editing == Some(c) && form == FormOf(c) && showModal
      ensures courses == old(courses) && filteredCourses == old(filteredCourses)
      ensures searchQuery == old(searchQuery) && currentPage == old(currentPage)
    {
      editing := Some(c);
      form := FormOf(c);
      showModal := true;
    }

    /**
     * `handleSubmit`: always one request, an update of the edited course or a creation; a
     * success closes the modal and restores the default form, a failure changes nothing.
     */
    method Submit(succeeded: bool) returns (call: ApiCall)
      modifies this
      ensures old(editing).Some? ==> call == UpdateCourseCall(old(editing).value.id, old(form))
      ensures old(editing).None? ==> call == CreateCourseCall(old(form))
      ensures succeeded ==> !showModal && editing.None? && form == DefaultForm
      ensures !succeeded ==> showModal == old(showModal) && editing == old(editing) && form == old(form)
      ensures courses == old(courses) && filteredCourses == old(filteredCourses)
      ensures searchQuery == old(searchQuery) && currentPage == old(currentPage)
    {
      if editing.Some? {
        call := UpdateCourseCall(editing.value.id, form);
      } else {
        call := CreateCourseCall(form);
      }
      if succeeded {
        showModal := false;
        editing := None;
        form := DefaultForm;
      }
    }
  }
}
