/**
 * The grades page (`Grades.jsx`): the search-and-filter effect over the loaded grades, the
 * label and colour of a grade, the page of ten, and the form's submit guard. The page state
 * is a class; the requests it makes are returned as values, and whether a request succeeded
 * is a parameter. `parseFloat` is the parameter `parse` for the grade field; the two bound
 * filters are given already parsed (`NotANumber` when `parseFloat` yields NaN).
 */
module FrontGradesPage {
  import opened Wrappers
  import opened Text
  import opened Seqs
  import opened Pagination

  const ItemsPerPage: nat := 10

  /** The populated student of a grade (`grade.student`); a missing student number is "". */
  datatype StudentRef = StudentRef(id: string, firstName: string, lastName: string, studentNumber: string)

  /** The populated course of a grade (`grade.course`); a missing name or code is "". */
  datatype CourseRef = CourseRef(id: string, name: string, code: string)

  /** A grade as listed; `student` or `course` is None when the reference did not resolve. */
  datatype GradeItem = GradeItem(id: string, student: Option<StudentRef>, course: Option<CourseRef>, grade: real)

  /** A bound filter: empty, a parsed number, or a string `parseFloat` turns into NaN. */
  datatype Bound = Unset | Parsed(value: real) | NotANumber

  datatype Filters = Filters(studentId: string, courseId: string, minGrade: Bound, maxGrade: Bound)

  const NoFilters: Filters := Filters("", "", Unset, Unset)

  // ---------------------------------------------------------------------------
  // The search and the filters

  /** `${grade.student?.firstName} ${grade.student?.lastName}`: without a student both halves read "undefined". */
  function StudentName(g: GradeItem): (name: string)
    ensures g.student.None? ==> name == "undefined undefined"
    ensures g.student.Some? ==> name == g.student.value.firstName + " " + g.student.value.lastName
  {
    match g.student
    case None => "undefined undefined"
    case Some(s) => s.firstName + " " + s.lastName
  }

  /** The grade matches the lowercased query in the student name, course name, course code or student number. */
  predicate MatchesQuery(g: GradeItem, query: string)
    ensures query == "" ==> MatchesQuery(g, query)
  {
    Contains(Lower(StudentName(g)), query) ||
    Contains(if g.course.Some? then Lower(g.course.value.name) else "", query) ||
    Contains(if g.course.Some? then Lower(g.course.value.code) else "", query) ||
    Contains(if g.student.Some? then Lower(g.student.value.studentNumber) else "", query)
  }

  predicate ForStudent(g: GradeItem, id: string) {
    g.student.Some? && g.student.value.id == id
  }

  predicate ForCourse(g: GradeItem, id: string) {
    g.course.Some? && g.course.value.id == id
  }

  /** `g.grade >= parseFloat(minGrade)`; every comparison with NaN is false. */
  predicate AtLeast(g: GradeItem, b: Bound) {
    match b
    case Unset => true
    case Parsed(x) => g.grade >= x
    case NotANumber => false
  }

  predicate AtMost(g: GradeItem, b: Bound) {
    match b
    case Unset => true
    case Parsed(x) => g.grade <= x
    case NotANumber => false
  }

  /** Whether the effect keeps a grade: every active criterion holds. */
  predicate Keeps(g: GradeItem, searchQuery: string, f: Filters) {
    (IsBlank(searchQuery) || MatchesQuery(g, Lower(searchQuery))) &&
    (f.studentId == "" || ForStudent(g, f.studentId)) &&
    (f.courseId == "" || ForCourse(g, f.courseId)) &&
    AtLeast(g, f.minGrade) && AtMost(g, f.maxGrade)
  }

  function QueryMatcher(query: string): (p: GradeItem -> bool)
    ensures forall g :: p(g) == MatchesQuery(g, query)
  {
    (g: GradeItem) => MatchesQuery(g, query)
  }

  function StudentMatcher(id: string): (p: GradeItem -> bool)
    ensures forall g :: p(g) == ForStudent(g, id)
  {
    (g: GradeItem) => ForStudent(g, id)
  }

  function CourseMatcher(id: string): (p: GradeItem -> bool)
    ensures forall g :: p(g) == ForCourse(g, id)
  {
    (g: GradeItem) => ForCourse(g, id)
  }

  function MinMatcher(b: Bound): (p: GradeItem -> bool)
    ensures forall g :: p(g) == AtLeast(g, b)
  {
    (g: GradeItem) => AtLeast(g, b)
  }

  function MaxMatcher(b: Bound): (p: GradeItem -> bool)
    ensures forall g :: p(g) == AtMost(g, b)
  {
    (g: GradeItem) => AtMost(g, b)
  }

  function Keeper(searchQuery: string, f: Filters): (p: GradeItem -> bool)
    ensures forall g :: p(g) == Keeps(g, searchQuery, f)
  {
    (g: GradeItem) => Keeps(g, searchQuery, f)
  }

  /** One step of the effect: `filtered = filtered.filter(p)` when the criterion is active. */
  function StepBy(gs: seq<GradeItem>, active: bool, p: GradeItem -> bool): (r: seq<GradeItem>)
    ensures |r| <= |gs|
    ensures forall g :: g in r <==> g in gs && (!active || p(g))
  {
    FilterMembershipAll(gs, p);
    if active then Filter(gs, p) else gs
  }

  /** The effect's five steps in their order: a grade is kept exactly when it meets every active criterion. */
  function FilteredGrades(gs: seq<GradeItem>, searchQuery: string, f: Filters): (r: seq<GradeItem>)
    ensures |r| <= |gs|
    ensures forall g :: g in r <==> g in gs && Keeps(g, searchQuery, f)
  {
    var bySearch := StepBy(gs, !IsBlank(searchQuery), QueryMatcher(Lower(searchQuery)));
    var byStudent := StepBy(bySearch, f.studentId != "", StudentMatcher(f.studentId));
    var byCourse := StepBy(byStudent, f.courseId != "", CourseMatcher(f.courseId));
    var byMin := StepBy(byCourse, f.minGrade != Unset, MinMatcher(f.minGrade));
    StepBy(byMin, f.maxGrade != Unset, MaxMatcher(f.maxGrade))
  }

  lemma StepByAppend(a: seq<GradeItem>, b: seq<GradeItem>, active: bool, p: GradeItem -> bool)
    ensures StepBy(a + b, active, p) == StepBy(a, active, p) + StepBy(b, active, p)
  {
    FilterAppend(a, b, p);
  }

  lemma StepBySingle(g: GradeItem, active: bool, p: GradeItem -> bool)
    ensures StepBy([g], active, p) == if !active || p(g) then [g] else []
  {
    assert [g][1..] == [];
  }

  lemma StepByEmpty(active: bool, p: GradeItem -> bool)
    ensures StepBy([], active, p) == []
  {
  }

  lemma FilteredAppend(a: seq<GradeItem>, b: seq<GradeItem>, searchQuery: string, f: Filters)
    ensures FilteredGrades(a + b, searchQuery, f) == FilteredGrades(a, searchQuery, f) + FilteredGrades(b, searchQuery, f)
  {
    var q := Lower(searchQuery);
    var a1, b1 := StepBy(a, !IsBlank(searchQuery), QueryMatcher(q)), StepBy(b, !IsBlank(searchQuery), QueryMatcher(q));
    StepByAppend(a, b, !IsBlank(searchQuery), QueryMatcher(q));
    var a2, b2 := StepBy(a1, f.studentId != "", StudentMatcher(f.studentId)), StepBy(b1, f.studentId != "", StudentMatcher(f.studentId));
    StepByAppend(a1, b1, f.studentId != "", StudentMatcher(f.studentId));
    var a3, b3 := StepBy(a2, f.courseId != "", CourseMatcher(f.courseId)), StepBy(b2, f.courseId != "", CourseMatcher(f.courseId));
    StepByAppend(a2, b2, f.courseId != "", CourseMatcher(f.courseId));
    var a4, b4 := StepBy(a3, f.minGrade != Unset, MinMatcher(f.minGrade)), StepBy(b3, f.minGrade != Unset, MinMatcher(f.minGrade));
    StepByAppend(a3, b3, f.minGrade != Unset, MinMatcher(f.minGrade));
    StepByAppend(a4, b4, f.maxGrade != Unset, MaxMatcher(f.maxGrade));
  }

  lemma FilteredSingle(g: GradeItem, searchQuery: string, f: Filters)
    ensures FilteredGrades([g], searchQuery, f) == if Keeps(g, searchQuery, f) then [g] else []
  {
    var q := Lower(searchQuery);
    StepBySingle(g, !IsBlank(searchQuery), QueryMatcher(q));
    StepBySingle(g, f.studentId != "", StudentMatcher(f.studentId));
    StepBySingle(g, f.courseId != "", CourseMatcher(f.courseId));
    StepBySingle(g, f.minGrade != Unset, MinMatcher(f.minGrade));
    StepBySingle(g, f.maxGrade != Unset, MaxMatcher(f.maxGrade));
    StepByEmpty(f.studentId != "", StudentMatcher(f.studentId));
    StepByEmpty(f.courseId != "", CourseMatcher(f.courseId));
    StepByEmpty(f.minGrade != Unset, MinMatcher(f.minGrade));
    StepByEmpty(f.maxGrade != Unset, MaxMatcher(f.maxGrade));
  }

  /**
   * The five steps in a row are one filter by the conjunction of the active criteria: the
   * kept grades are exactly those in the list that meet them all, in list order.
   */
  lemma {:induction false} FilteredIsOneFilter(gs: seq<GradeItem>, searchQuery: string, f: Filters)
    ensures FilteredGrades(gs, searchQuery, f) == Filter(gs, Keeper(searchQuery, f))
    decreases |gs|
  {
    if gs == [] {
      StepByEmpty(!IsBlank(searchQuery), QueryMatcher(Lower(searchQuery)));
      StepByEmpty(f.studentId != "", StudentMatcher(f.studentId));
      StepByEmpty(f.courseId != "", CourseMatcher(f.courseId));
      StepByEmpty(f.minGrade != Unset, MinMatcher(f.minGrade));
      StepByEmpty(f.maxGrade != Unset, MaxMatcher(f.maxGrade));
    } else {
      assert gs == [gs[0]] + gs[1..];
      FilteredAppend([gs[0]], gs[1..], searchQuery, f);
      FilteredSingle(gs[0], searchQuery, f);
      FilteredIsOneFilter(gs[1..], searchQuery, f);
    }
  }

  /** A grade is listed exactly when it is loaded and meets every active criterion; the order is kept. */
  lemma FilteredGradesSpec(gs: seq<GradeItem>, searchQuery: string, f: Filters)
    ensures forall g :: g in FilteredGrades(gs, searchQuery, f) <==> g in gs && Keeps(g, searchQuery, f)
    ensures IsSubsequence(FilteredGrades(gs, searchQuery, f), gs)
  {
    FilteredIsOneFilter(gs, searchQuery, f);
    forall g ensures g in FilteredGrades(gs, searchQuery, f) <==> g in gs && Keeps(g, searchQuery, f) {
      FilterMembership(gs, Keeper(searchQuery, f), g);
    }
    FilterIsSubsequence(gs, Keeper(searchQuery, f));
  }

  /** A blank query with every filter empty lists every grade. */
  lemma NoCriteriaListsAll(gs: seq<GradeItem>, searchQuery: string)
    requires IsBlank(searchQuery)
    ensures FilteredGrades(gs, searchQuery, NoFilters) == gs
  {
  }

  /** A grade without a resolved student passes the student filter never, and a NaN bound empties the list. */
  lemma UnresolvedAndNaN(gs: seq<GradeItem>, searchQuery: string, f: Filters, g: GradeItem)
    ensures f.studentId != "" && g.student.None? ==> !Keeps(g, searchQuery, f)
    ensures f.minGrade == NotANumber || f.maxGrade == NotANumber ==> FilteredGrades(gs, searchQuery, f) == []
  {
    FilteredGradesSpec(gs, searchQuery, f);
  }

  // ---------------------------------------------------------------------------
  // Label, colour and page

  /** `getGradeLabel`. */
  function GradeLabel(grade: real): (text: string)
    ensures grade >= 16.0 ==> text == "Excellent"
    ensures 14.0 <= grade < 16.0 ==> text == "Très bien"
    ensures 12.0 <= grade < 14.0 ==> text == "Bien"
    ensures 10.0 <= grade < 12.0 ==> text == "Passable"
    ensures grade < 10.0 ==> text == "Insuffisant"
  {
    if grade >= 16.0 then "Excellent"
    else if grade >= 14.0 then "Très bien"
    else if grade >= 12.0 then "Bien"
    else if grade >= 10.0 then "Passable"
    else "Insuffisant"
  }

  /** The Tailwind classes of a badge in colour `c`: `bg-c-100 text-c-800 dark:bg-c-900 dark:text-c-200`. */
  function BadgeStyle(c: string): (style: string)
    ensures |style| > 3 + |c| && style[3..3 + |c|] == c
  {
    "bg-" + c + "-100 text-" + c + "-800 dark:bg-" + c + "-900 dark:text-" + c + "-200"
  }

  /** `getGradeBadge`: green, blue, yellow, orange and red on the same thresholds. */
  function GradeBadge(grade: real): (badge: string)
    ensures grade >= 16.0 ==> badge == BadgeStyle("green")
    ensures 14.0 <= grade < 16.0 ==> badge == BadgeStyle("blue")
    ensures 12.0 <= grade < 14.0 ==> badge == BadgeStyle("yellow")
    ensures 10.0 <= grade < 12.0 ==> badge == BadgeStyle("orange")
    ensures grade < 10.0 ==> badge == BadgeStyle("red")
  {
    if grade >= 16.0 then BadgeStyle("green")
    else if grade >= 14.0 then BadgeStyle("blue")
    else if grade >= 12.0 then BadgeStyle("yellow")
    else if grade >= 10.0 then BadgeStyle("orange")
    else BadgeStyle("red")
  }

  /** The band of a grade on the thresholds 16, 14, 12 and 10, from 0 (highest) to 4. */
  function BandOf(grade: real): (k: nat)
    ensures k < 5
    ensures k == 0 <==> grade >= 16.0
    ensures k == 1 <==> 14.0 <= grade < 16.0
    ensures k == 2 <==> 12.0 <= grade < 14.0
    ensures k == 3 <==> 10.0 <= grade < 12.0
    ensures k == 4 <==> grade < 10.0
  {
    if grade >= 16.0 then 0 else if grade >= 14.0 then 1 else if grade >= 12.0 then 2 else if grade >= 10.0 then 3 else 4
  }

  const Labels: seq<string> := ["Excellent", "Très bien", "Bien", "Passable", "Insuffisant"]

  const Badges: seq<string> := [
    BadgeStyle("green"),
    BadgeStyle("blue"),
    BadgeStyle("yellow"),
    BadgeStyle("orange"),
    BadgeStyle("red")]

  /** Label and colour are both read off the band. */
  lemma LabelAndBadgeOfBand(grade: real)
    ensures GradeLabel(grade) == Labels[BandOf(grade)]
    ensures GradeBadge(grade) == Badges[BandOf(grade)]
  {
  }

  /** The five labels differ, and so do the five colours. */
  lemma LabelsAndBadgesDistinct()
    ensures Distinct(Labels) && Distinct(Badges)
  {
    assert Labels[0][0] == 'E' && Labels[1][0] == 'T' && Labels[2][0] == 'B' && Labels[3][0] == 'P' && Labels[4][0] == 'I';
    assert Badges[0][3..4] == "g" && Badges[1][3..4] == "b" && Badges[2][3..4] == "y" && Badges[3][3..4] == "o" && Badges[4][3..4] == "r";
  }

  /** Label and colour agree: two grades share a label exactly when they share a band, and so a colour. */
  lemma LabelAgreesWithBadge(a: real, b: real)
    ensures GradeLabel(a) == GradeLabel(b) <==> BandOf(a) == BandOf(b)
    ensures GradeBadge(a) == GradeBadge(b) <==> BandOf(a) == BandOf(b)
  {
    LabelAndBadgeOfBand(a);
    LabelAndBadgeOfBand(b);
    LabelsAndBadgesDistinct();
  }

  /** The items of page `page` (from 1): at most ten consecutive filtered grades. */
  function CurrentItems(filtered: seq<GradeItem>, page: nat): (items: seq<GradeItem>)
    ensures |items| <= ItemsPerPage
    ensures 1 <= page <= TotalPages(|filtered|, ItemsPerPage) ==>
      items == filtered[(page - 1) * ItemsPerPage..Min(page * ItemsPerPage, |filtered|)] && items != []
  {
    if 1 <= page <= TotalPages(|filtered|, ItemsPerPage) then
      PageNonEmpty(filtered, page, ItemsPerPage);
      Page(filtered, page, ItemsPerPage)
    else
      Page(filtered, page, ItemsPerPage)
  }

  /** `userRole === 'administrateur' || userRole === 'scolarite'`, the role defaulting to 'visiteur'. */
  function CanEdit(role: Option<string>): (can: bool)
    ensures can <==> role == Some("administrateur") || role == Some("scolarite")
  {
    var r := if role.Some? && role.value != "" then role.value else "visiteur";
    r == "administrateur" || r == "scolarite"
  }

  // ---------------------------------------------------------------------------
  // The page state

  datatype GradeForm = GradeForm(student: string, course: string, grade: string)

  const EmptyForm: GradeForm := GradeForm("", "", "")

  /** The requests `handleSubmit` makes: an edit sends only the grade. */
  datatype ApiCall = UpdateGradeCall(id: string, grade: real) | CreateGradeCall(student: string, course: string, grade: real)

  class GradesPage {
    var grades: seq<GradeItem>
    var filteredGrades: seq<GradeItem>
    var searchQuery: string
    var filters: Filters
    var currentPage: nat
    var showModal: bool
    var editing: Option<GradeItem>
    var form: GradeForm

    /** The initial state: nothing loaded, no criteria, page 1, the form empty and closed. */
    constructor ()
      ensures grades == [] && filteredGrades == [] && searchQuery == "" && filters == NoFilters
      ensures currentPage == 1 && !showModal && editing.None? && form == EmptyForm
    {
      grades, filteredGrades := [], [];
      searchQuery, filters := "", NoFilters;
      currentPage := 1;
      showModal, editing, form := false, None, EmptyForm;
    }

    /** The filter effect: `filtered` goes through the five steps, then page 1 is shown. */
    method RunFilterEffect()
      modifies this
      ensures filteredGrades == FilteredGrades(grades, searchQuery, filters)
      ensures currentPage == 1
      ensures grades == old(grades) && searchQuery == old(searchQuery) && filters == old(filters)
      ensures showModal == old(showModal) && editing == old(editing) && form == old(form)
    {
      var filtered := grades;
      if !IsBlank(searchQuery) {
        filtered := Filter(filtered, QueryMatcher(Lower(searchQuery)));
      }
      if filters.studentId != "" {
        filtered := Filter(filtered, StudentMatcher(filters.studentId));
      }
      if filters.courseId != "" {
        filtered := Filter(filtered, CourseMatcher(filters.courseId));
      }
      if filters.minGrade != Unset {
        filtered := Filter(filtered, MinMatcher(filters.minGrade));
      }
      if filters.maxGrade != Unset {
        filtered := Filter(filtered, MaxMatcher(filters.maxGrade));
      }
      filteredGrades := filtered;
      currentPage := 1;
    }

    /** A new query: the effect runs again. */
    method SetSearchQuery(q: string)
      modifies this
      ensures searchQuery == q && filteredGrades == FilteredGrades(grades, q, filters) && currentPage == 1
      ensures grades == old(grades) && filters == old(filters)
      ensures showModal == old(showModal) && editing == old(editing) && form == old(form)
    {
      searchQuery := q;
      RunFilterEffect();
    }

    /** New filters: the effect runs again. */
    method SetFilters(f: Filters)
      modifies this
      ensures filters == f && filteredGrades == FilteredGrades(grades, searchQuery, f) && currentPage == 1
      ensures grades == old(grades) && searchQuery == old(searchQuery)
      ensures showModal == old(showModal) && editing == old(editing) && form == old(form)
    {
      filters := f;
      RunFilterEffect();
    }

    /** `loadData` succeeded with these grades: they are stored and the effect runs again. */
    method Loaded(gs: seq<GradeItem>)
      modifies this
      ensures grades == gs && filteredGrades == FilteredGrades(gs, searchQuery, filters) && currentPage == 1
      ensures searchQuery == old(searchQuery) && filters == old(filters)
      ensures showModal == old(showModal) && editing == old(editing) && form == old(form)
    {
      grades := gs;
      filteredGrades := gs;
      RunFilterEffect();
    }

    /** `clearFilters`: every filter and the query emptied, so every grade shows again. */
    method ClearFilters()
      modifies this
      ensures filters == NoFilters && searchQuery == "" && filteredGrades == grades && currentPage == 1
      ensures grades == old(grades) && showModal == old(showModal) && editing == old(editing) && form == old(form)
    {
      filters := NoFilters;
      searchQuery := "";
      RunFilterEffect();
      NoCriteriaListsAll(grades, "");
    }

    /** `handleEdit`: the form takes the grade's ids ('' when unresolved) and its value as text. */
    method Edit(g: GradeItem, show: real -> string)
      modifies this
      ensures editing == Some(g) && showModal
      ensures form == GradeForm(if g.student.Some? then g.student.value.id else "",
                                if g.course.Some? then g.course.value.id else "", show(g.grade))
      ensures grades == old(grades) && filteredGrades == old(filteredGrades) && searchQuery == old(searchQuery)
      ensures filters == old(filters) && currentPage == old(currentPage)
    {
      editing := Some(g);
      form := GradeForm(if g.student.Some? then g.student.value.id else "",
                        if g.course.Some? then g.course.value.id else "", show(g.grade));
      showModal := true;
    }

    /**
     * `handleSubmit`: no request when a field is empty; otherwise an update of the grade alone
     * when editing, or a creation. A request that succeeds closes and empties the form; one
     * that fails leaves the state as it was.
     */
    method Submit(parse: string -> real, succeeded: bool) returns (call: Option<ApiCall>)
      modifies this
      ensures old(form.student == "" || form.course == "" || form.grade == "") <==> call.None?
      ensures call.Some? && old(editing).Some? ==> call == Some(UpdateGradeCall(old(editing).value.id, parse(old(form).grade)))
      ensures call.Some? && old(editing).None? ==>
        call == Some(CreateGradeCall(old(form).student, old(form).course, parse(old(form).grade)))
      ensures call.Some? && succeeded ==> !showModal && editing.None? && form == EmptyForm
      ensures call.None? || !succeeded ==> showModal == old(showModal) && editing == old(editing) && form == old(form)
      ensures grades == old(grades) && filteredGrades == old(filteredGrades) && searchQuery == old(searchQuery)
      ensures filters == old(filters) && currentPage == old(currentPage)
    {
      if form.student == "" || form.course == "" || form.grade == "" {
        return None;
      }
      if editing.Some? {
        call := Some(UpdateGradeCall(editing.value.id, parse(form.grade)));
      } else {
        call := Some(CreateGradeCall(form.student, form.course, parse(form.grade)));
      }
      if succeeded {
        showModal := false;
        editing := None;
        form := EmptyForm;
      }
    }
  }
}
