/**
 * The statistics of the staff dashboard (`Dashboard.jsx`), computed from the three lists it
 * loads: students, courses and grades (each grade with its student and course resolved, None
 * when the reference did not resolve). Averages and rates are exact; the `toFixed` and
 * `parseFloat` rounding and the locale date labels are left out (the month label of a date is
 * the parameter `monthOf`).
 */
module FrontDashboard {
  import opened Wrappers
  import opened Text
  import opened Seqs
  import opened Pagination

  datatype GradeRow = GradeRow(student: Option<nat>, course: Option<nat>, courseCode: string, grade: real, date: int)
  datatype StudentRow = StudentRow(id: nat, firstName: string, lastName: string, createdAt: int)
  datatype CourseRow = CourseRow(id: nat, name: string, code: string)

  // ---------------------------------------------------------------------------
  // Sums and averages

  /** `grades.reduce((sum, g) => sum + g.grade, 0)`. */
  function Sum(gs: seq<GradeRow>): real
    decreases |gs|
  {
    if gs == [] then 0.0 else gs[0].grade + Sum(gs[1..])
  }

  /** Grades between two bounds sum to between the bounds times their number. */
  lemma {:induction false} SumBounds(gs: seq<GradeRow>, lo: real, hi: real)
    requires forall i :: 0 <= i < |gs| ==> lo <= gs[i].grade <= hi
    ensures lo * (|gs| as real) <= Sum(gs) <= hi * (|gs| as real)
    decreases |gs|
  {
    if gs != [] {
      SumBounds(gs[1..], lo, hi);
    }
  }

  /** The mean grade, 0 for no grades. */
  function Average(gs: seq<GradeRow>): (a: real)
    ensures |gs| == 0 ==> a == 0.0
    ensures |gs| > 0 ==> a * (|gs| as real) == Sum(gs)
  {
    if |gs| == 0 then 0.0 else Sum(gs) / (|gs| as real)
  }

  /** The mean of grades in [0, 20] is in [0, 20]. */
  lemma AverageInRange(gs: seq<GradeRow>)
    requires forall i :: 0 <= i < |gs| ==> 0.0 <= gs[i].grade <= 20.0
    ensures 0.0 <= Average(gs) <= 20.0
  {
    SumBounds(gs, 0.0, 20.0);
  }

  // ---------------------------------------------------------------------------
  // `stats`

  predicate Passed(g: GradeRow) {
    g.grade >= 10.0
  }

  predicate Excellent(g: GradeRow) {
    g.grade >= 16.0
  }

  /** `(k / n) * 100`, 0 when there is nothing to count. */
  function Rate(k: nat, n: nat): (r: real)
    ensures n == 0 ==> r == 0.0
    ensures n > 0 && k <= n ==> 0.0 <= r <= 100.0
  {
    if n == 0 then 0.0 else (k as real / n as real) * 100.0
  }

  lemma RateMonotone(k1: nat, k2: nat, n: nat)
    requires k1 <= k2
    ensures Rate(k1, n) <= Rate(k2, n)
  {
    if n > 0 {
      assert k1 as real / n as real <= k2 as real / n as real;
    }
  }

  datatype Stats = Stats(totalStudents: nat, totalCourses: nat, totalGrades: nat,
                         averageGrade: real, passRate: real, excellenceRate: real)

  /**
   * `stats`: the three list lengths, the mean grade and the share of grades of at least 10
   * and of at least 16; with no grades the last three are 0, and an excellent grade is a pass.
   */
  function StatsOf(students: seq<StudentRow>, courses: seq<CourseRow>, grades: seq<GradeRow>): (s: Stats)
    ensures s.totalStudents == |students| && s.totalCourses == |courses| && s.totalGrades == |grades|
    ensures s.averageGrade == Average(grades)
    ensures s.passRate == Rate(Count(grades, Passed), |grades|)
    ensures s.excellenceRate == Rate(Count(grades, Excellent), |grades|)
    ensures grades == [] ==> s.averageGrade == 0.0 && s.passRate == 0.0 && s.excellenceRate == 0.0
    ensures 0.0 <= s.excellenceRate <= s.passRate <= 100.0
  {
    CountMonotone(grades, Excellent, Passed);
    RateMonotone(Count(grades, Excellent), Count(grades, Passed), |grades|);
    Stats(|students|, |courses|, |grades|, Average(grades),
          Rate(Count(grades, Passed), |grades|), Rate(Count(grades, Excellent), |grades|))
  }

  // ---------------------------------------------------------------------------
  // `gradeDistribution`

  predicate VeryGood(g: GradeRow) {
    14.0 <= g.grade < 16.0
  }

  predicate Good(g: GradeRow) {
    12.0 <= g.grade < 14.0
  }

  predicate Fair(g: GradeRow) {
    10.0 <= g.grade < 12.0
  }

  predicate Failing(g: GradeRow) {
    g.grade < 10.0
  }

  /** Every grade falls in exactly one of the five bands. */
  lemma BandsPartition(g: GradeRow)
    ensures Excellent(g) || VeryGood(g) || Good(g) || Fair(g) || Failing(g)
    ensures !(Excellent(g) && VeryGood(g)) && !(Excellent(g) && Good(g)) && !(Excellent(g) && Fair(g))
    ensures !(Excellent(g) && Failing(g)) && !(VeryGood(g) && Good(g)) && !(VeryGood(g) && Fair(g))
    ensures !(VeryGood(g) && Failing(g)) && !(Good(g) && Fair(g)) && !(Good(g) && Failing(g)) && !(Fair(g) && Failing(g))
  {
  }

  /** The five band counts add up to the number of grades, and the four upper ones to the passes. */
  lemma {:induction false} BandCountsSum(grades: seq<GradeRow>)
    ensures Count(grades, Excellent) + Count(grades, VeryGood) + Count(grades, Good) + Count(grades, Fair)
            == Count(grades, Passed)
    ensures Count(grades, Passed) + Count(grades, Failing) == |grades|
    decreases |grades|
  {
    if grades != [] {
      BandCountsSum(grades[1..]);
    }
  }

  datatype Band = Band(name: string, value: nat, color: string)

  /** The five bands with their counts, before the empty ones are dropped. */
  function AllBands(grades: seq<GradeRow>): (bands: seq<Band>)
    ensures |bands| == 5
  {
    [ Band("Excellent (16-20)", Count(grades, Excellent), "#10b981"),
      Band("Très bien (14-16)", Count(grades, VeryGood), "#3b82f6"),
      Band("Bien (12-14)", Count(grades, Good), "#eab308"),
      Band("Passable (10-12)", Count(grades, Fair), "#f97316"),
      Band("Insuffisant (<10)", Count(grades, Failing), "#ef4444") ]
  }

  function SumValues(bands: seq<Band>): nat
    decreases |bands|
  {
    if bands == [] then 0 else bands[0].value + SumValues(bands[1..])
  }

  predicate NonEmptyBand(b: Band) {
    b.value > 0
  }

  /** Dropping the empty bands does not change the total. */
  lemma {:induction false} SumValuesDropsZeros(bands: seq<Band>)
    ensures SumValues(Filter(bands, NonEmptyBand)) == SumValues(bands)
    decreases |bands|
  {
    if bands != [] {
      SumValuesDropsZeros(bands[1..]);
      var rest := Filter(bands[1..], NonEmptyBand);
      if bands[0].value > 0 {
        assert Filter(bands, NonEmptyBand) == [bands[0]] + rest;
        assert ([bands[0]] + rest)[1..] == rest;
      } else {
        assert Filter(bands, NonEmptyBand) == [] + rest == rest;
      }
    }
  }

  lemma SumValuesOfFive(a: Band, b: Band, c: Band, d: Band, e: Band)
    ensures SumValues([a, b, c, d, e]) == a.value + b.value + c.value + d.value + e.value
  {
    assert [e][1..] == [];
    assert SumValues([e]) == e.value;
    assert [d, e][1..] == [e];
    assert SumValues([d, e]) == d.value + e.value;
    assert [c, d, e][1..] == [d, e];
    assert SumValues([c, d, e]) == c.value + d.value + e.value;
    assert [b, c, d, e][1..] == [c, d, e];
    assert SumValues([b, c, d, e]) == b.value + c.value + d.value + e.value;
    assert [a, b, c, d, e][1..] == [b, c, d, e];
  }

  /** `gradeDistribution`: the non-empty bands in band order; together they count every grade once. */
  function Distribution(grades: seq<GradeRow>): (bands: seq<Band>)
    ensures forall b :: b in bands <==> b in AllBands(grades) && b.value > 0
    ensures IsSubsequence(bands, AllBands(grades))
    ensures SumValues(bands) == |grades|
  {
    var all := AllBands(grades);
    forall b ensures b in Filter(all, NonEmptyBand) <==> b in all && NonEmptyBand(b) {
      FilterMembership(all, NonEmptyBand, b);
    }
    FilterIsSubsequence(all, NonEmptyBand);
    SumValuesDropsZeros(all);
    BandCountsSum(grades);
    SumValuesOfFive(all[0], all[1], all[2], all[3], all[4]);
    assert all == [all[0], all[1], all[2], all[3], all[4]];
    Filter(all, NonEmptyBand)
  }

  // ---------------------------------------------------------------------------
  // `averageGradesByCourse`

  datatype CourseAverage = CourseAverage(name: string, fullName: string, moyenne: real, count: nat)

  function CourseIs(id: nat): (p: GradeRow -> bool)
    ensures forall g :: p(g) <==> g.course == Some(id)
  {
    (g: GradeRow) => g.course == Some(id)
  }

  /** The grades whose course resolved to this course. */
  function GradesOfCourse(grades: seq<GradeRow>, id: nat): (r: seq<GradeRow>)
    ensures forall g :: g in r <==> g in grades && g.course == Some(id)
  {
    var r := Filter(grades, CourseIs(id));
    forall g ensures g in r <==> g in grades && g.course == Some(id) {
      FilterMembership(grades, CourseIs(id), g);
    }
    r
  }

  /** One course's entry: its code as name, its mean grade and its number of grades. */
  function CourseEntry(grades: seq<GradeRow>, c: CourseRow): (e: CourseAverage)
    ensures e.name == c.code && e.fullName == c.name
    ensures e.count == |GradesOfCourse(grades, c.id)| && e.moyenne == Average(GradesOfCourse(grades, c.id))
  {
    var gs := GradesOfCourse(grades, c.id);
    CourseAverage(c.code, c.name, Average(gs), |gs|)
  }

  predicate HasGrades(e: CourseAverage) {
    e.count > 0
  }

  function Moyenne(e: CourseAverage): real {
    e.moyenne
  }

  function CourseEntries(courses: seq<CourseRow>, grades: seq<GradeRow>): (es: seq<CourseAverage>)
    ensures |es| == |courses|
    ensures forall i :: 0 <= i < |courses| ==> es[i] == CourseEntry(grades, courses[i])
  {
    Map(courses, (c: CourseRow) => CourseEntry(grades, c))
  }

  /**
   * `averageGradesByCourse`: one entry per course that has grades, by mean grade from the
   * highest; the entries are those of the courses, nothing dropped but the ungraded ones.
   */
  function AverageByCourse(courses: seq<CourseRow>, grades: seq<GradeRow>): (r: seq<CourseAverage>)
    ensures multiset(r) == multiset(Filter(CourseEntries(courses, grades), HasGrades))
    ensures forall e :: e in r ==> e.count > 0
    ensures forall c :: c in courses && |GradesOfCourse(grades, c.id)| > 0 ==> CourseEntry(grades, c) in r
    ensures forall e :: e in r ==> e in CourseEntries(courses, grades)
    ensures Sorted(r, Descending(Moyenne))
  {
    var es := CourseEntries(courses, grades);
    var kept := Filter(es, HasGrades);
    DescendingTotal(Moyenne);
    var r := SortBy(kept, Descending(Moyenne));
    assert forall e :: e in r <==> e in kept by {
      assert forall e :: e in r <==> e in multiset(kept);
    }
    forall c | c in courses && |GradesOfCourse(grades, c.id)| > 0 ensures CourseEntry(grades, c) in r {
      var i :| 0 <= i < |courses| && courses[i] == c;
      assert es[i] == CourseEntry(grades, c);
      FilterMembership(es, HasGrades, es[i]);
    }
    r
  }

  // ---------------------------------------------------------------------------
  // `last10Grades`

  function DateKey(g: GradeRow): real {
    g.date as real
  }

  /** `[...grades].sort((a, b) => new Date(a.date) - new Date(b.date))`. */
  function ByDate(grades: seq<GradeRow>): (r: seq<GradeRow>)
    ensures multiset(r) == multiset(grades) && |r| == |grades|
    ensures Sorted(r, Ascending(DateKey))
  {
    AscendingTotal(DateKey);
    var r := SortBy(grades, Ascending(DateKey));
    assert |r| == |multiset(r)| == |multiset(grades)| == |grades|;
    r
  }

  /** A suffix of a date-sorted list is date-sorted, and holds no date older than the part cut off. */
  lemma LatestSuffix(sorted: seq<GradeRow>, k: nat)
    requires k <= |sorted| && Sorted(sorted, Ascending(DateKey))
    ensures Sorted(sorted[k..], Ascending(DateKey))
    ensures multiset(sorted[k..]) <= multiset(sorted)
    ensures forall i, j :: 0 <= i < k <= j < |sorted| ==> sorted[i].date <= sorted[j].date
  {
    assert sorted == sorted[..k] + sorted[k..];
    assert multiset(sorted) == multiset(sorted[..k]) + multiset(sorted[k..]);
    var r := sorted[k..];
    forall i | 0 <= i < |r| - 1 ensures DateKey(r[i]) <= DateKey(r[i + 1]) {
      assert r[i] == sorted[k + i] && r[i + 1] == sorted[k + i + 1];
    }
    forall i, j | 0 <= i < k <= j < |sorted| ensures sorted[i].date <= sorted[j].date {
      SortedAscendingPairwise(sorted, DateKey, i, j);
    }
  }

  /**
   * `.slice(-10)` of the grades by date: at most ten grades, in date order, none of them
   * older than any grade left out.
   */
  function Last10(grades: seq<GradeRow>): (r: seq<GradeRow>)
    ensures |r| == Min(10, |grades|)
    ensures Sorted(r, Ascending(DateKey))
    ensures multiset(r) <= multiset(grades)
    ensures r == ByDate(grades)[|grades| - |r|..]
    ensures forall i, j :: 0 <= i < |grades| - |r| <= j < |grades| ==> ByDate(grades)[i].date <= ByDate(grades)[j].date
  {
    var sorted := ByDate(grades);
    SliceTail(sorted, 10);
    var k := if 10 < |sorted| then |sorted| - 10 else 0;
    LatestSuffix(sorted, k);
    Slice(sorted, -10, |sorted|)
  }

  datatype ChartPoint = ChartPoint(name: string, note: real, cours: string)

  /** The chart points: `Note 1`, `Note 2`, … with the grade and the course code or 'N/A'. */
  function Last10Points(grades: seq<GradeRow>): (points: seq<ChartPoint>)
    ensures |points| == |Last10(grades)| <= 10
    ensures forall i :: 0 <= i < |points| ==>
      points[i].note == Last10(grades)[i].grade && points[i].name == "Note " + Decimal(i + 1) &&
      points[i].cours == (if Last10(grades)[i].courseCode != "" then Last10(grades)[i].courseCode else "N/A")
  {
    var r := Last10(grades);
    seq(|r|, i requires 0 <= i < |r| =>
      ChartPoint("Note " + Decimal(i + 1), r[i].grade, if r[i].courseCode != "" then r[i].courseCode else "N/A"))
  }

  // ---------------------------------------------------------------------------
  // `topStudents`

  datatype Ranked = Ranked(student: StudentRow, average: real, gradesCount: nat)

  function StudentIs(id: nat): (p: GradeRow -> bool)
    ensures forall g :: p(g) <==> g.student == Some(id)
  {
    (g: GradeRow) => g.student == Some(id)
  }

  function StudentEntry(grades: seq<GradeRow>, s: StudentRow): (e: Ranked)
    ensures e.student == s
    ensures e.gradesCount == Count(grades, StudentIs(s.id)) && e.average == Average(Filter(grades, StudentIs(s.id)))
  {
    var gs := Filter(grades, StudentIs(s.id));
    Ranked(s, Average(gs), |gs|)
  }

  predicate Graded(e: Ranked) {
    e.gradesCount > 0
  }

  function AverageOf(e: Ranked): real {
    e.average
  }

  /** Every student with at least one grade, by mean grade from the highest. */
  function Ranking(students: seq<StudentRow>, grades: seq<GradeRow>): (r: seq<Ranked>)
    ensures multiset(r) == multiset(Filter(Map(students, (s: StudentRow) => StudentEntry(grades, s)), Graded))
    ensures forall e :: e in r <==> e in Filter(Map(students, (s: StudentRow) => StudentEntry(grades, s)), Graded)
    ensures forall e :: e in r ==> e.gradesCount > 0
    ensures Sorted(r, Descending(AverageOf))
  {
    var kept := Filter(Map(students, (s: StudentRow) => StudentEntry(grades, s)), Graded);
    DescendingTotal(AverageOf);
    var r := SortBy(kept, Descending(AverageOf));
    assert forall e :: e in r <==> e in multiset(kept);
    r
  }

  /** Students listed once each are ranked once each. */
  lemma RankingDistinct(students: seq<StudentRow>, grades: seq<GradeRow>)
    requires Distinct(students)
    ensures Distinct(Ranking(students, grades))
  {
    var mapped := Map(students, (s: StudentRow) => StudentEntry(grades, s));
    forall i, j | 0 <= i < j < |mapped| ensures mapped[i] != mapped[j] {
      assert mapped[i].student == students[i] && mapped[j].student == students[j];
    }
    DistinctFilter(mapped, Graded);
    DistinctPermutation(Filter(mapped, Graded), Ranking(students, grades));
  }

  /**
   * `topStudents`: the first five of the ranking; each has grades, they are in descending
   * order, and no student left out has a higher mean than any of them.
   */
  function TopStudents(students: seq<StudentRow>, grades: seq<GradeRow>): (top: seq<Ranked>)
    ensures |top| == Min(5, |Ranking(students, grades)|)
    ensures top == Ranking(students, grades)[..|top|]
    ensures forall e :: e in top ==> e.gradesCount > 0
    ensures Sorted(top, Descending(AverageOf))
    ensures forall i, j :: 0 <= i < |top| <= j < |Ranking(students, grades)| ==>
      top[i].average >= Ranking(students, grades)[j].average
  {
    var ranking := Ranking(students, grades);
    SliceHead(ranking, 5);
    var top := Slice(ranking, 0, 5);
    forall i, j | 0 <= i < |top| <= j < |ranking| ensures top[i].average >= ranking[j].average {
      SortedDescendingPairwise(ranking, AverageOf, i, j);
    }
    top
  }

  // ---------------------------------------------------------------------------
  // `studentEnrollmentTrend`

  datatype MonthTotal = MonthTotal(month: string, total: nat)

  function CreatedKey(s: StudentRow): real {
    s.createdAt as real
  }

  /** The month labels of the students, in order. */
  function MonthsOf(students: seq<StudentRow>, monthOf: int -> string): (ms: seq<string>)
    ensures |ms| == |students|
    ensures forall i :: 0 <= i < |students| ==> ms[i] == monthOf(students[i].createdAt)
  {
    seq(|students|, i requires 0 <= i < |students| => monthOf(students[i].createdAt))
  }

  /** The position of the first occurrence of `m`. */
  function FirstIndex(ms: seq<string>, m: string): (k: nat)
    requires m in ms
    ensures k < |ms| && ms[k] == m && m !in ms[..k]
    decreases |ms|
  {
    var last := |ms| - 1;
    if m in ms[..last] then
      var k := FirstIndex(ms[..last], m);
      assert ms[..last][..k] == ms[..k];
      k
    else last
  }

  /** The number of occurrences of `m`. */
  function Occurrences(ms: seq<string>, m: string): nat
    decreases |ms|
  {
    if ms == [] then 0 else Occurrences(ms[..|ms| - 1], m) + (if ms[|ms| - 1] == m then 1 else 0)
  }

  function AccMonths(acc: seq<MonthTotal>): (r: seq<string>)
    ensures |r| == |acc|
    ensures forall j :: 0 <= j < |acc| ==> r[j] == acc[j].month
  {
    seq(|acc|, j requires 0 <= j < |acc| => acc[j].month)
  }

  /**
   * What the reduce builds from the months `ms`: one entry per distinct month, in the order
   * of first appearance, each total being the position of its first student plus one, plus one
   * for every later student of that month.
   */
  ghost predicate TrendOf(ms: seq<string>, acc: seq<MonthTotal>) {
    Distinct(AccMonths(acc)) &&
    (forall m :: m in ms <==> m in AccMonths(acc)) &&
    (forall j :: 0 <= j < |acc| ==>
      (acc[j].month in ms && acc[j].total == FirstIndex(ms, acc[j].month) + Occurrences(ms, acc[j].month))) &&
    (forall j1, j2 :: 0 <= j1 < j2 < |acc| ==>
      (acc[j1].month in ms && acc[j2].month in ms && FirstIndex(ms, acc[j1].month) < FirstIndex(ms, acc[j2].month)))
  }

  /** `acc.find(item => item.month === month)`, as a position. */
  function FindMonth(acc: seq<MonthTotal>, m: string): (r: Option<nat>)
    ensures r.Some? ==> r.value < |acc| && acc[r.value].month == m
    ensures r.None? <==> m !in AccMonths(acc)
    decreases |acc|
  {
    if acc == [] then None
    else if acc[0].month == m then Some(0)
    else
      var r := FindMonth(acc[1..], m);
      assert AccMonths(acc) == [acc[0].month] + AccMonths(acc[1..]);
      if r.Some? then Some(r.value + 1) else None
  }

  /** Extending the months by one keeps every earlier first position. */
  lemma FirstIndexExtend(ms: seq<string>, k: nat, m: string)
    requires k < |ms| && m in ms[..k]
    ensures m in ms[..k + 1] && FirstIndex(ms[..k + 1], m) == FirstIndex(ms[..k], m)
  {
    assert ms[..k + 1][..k] == ms[..k];
  }

  lemma OccurrencesExtend(ms: seq<string>, k: nat, m: string)
    requires k < |ms|
    ensures Occurrences(ms[..k + 1], m) == Occurrences(ms[..k], m) + (if ms[k] == m then 1 else 0)
  {
    assert ms[..k + 1][..k] == ms[..k];
  }

  lemma FirstIndexNew(ms: seq<string>, k: nat)
    requires k < |ms| && ms[k] !in ms[..k]
    ensures ms[k] in ms[..k + 1] && FirstIndex(ms[..k + 1], ms[k]) == k && Occurrences(ms[..k], ms[k]) == 0
  {
    assert ms[..k + 1][..k] == ms[..k];
    OccurrencesAbsent(ms[..k], ms[k]);
  }

  lemma {:induction false} OccurrencesAbsent(ms: seq<string>, m: string)
    requires m !in ms
    ensures Occurrences(ms, m) == 0
    decreases |ms|
  {
    if ms != [] {
      OccurrencesAbsent(ms[..|ms| - 1], m);
    }
  }

  /** The reduce's callback for the student at `index` whose month is `m`. */
  function Step(acc: seq<MonthTotal>, m: string, index: nat): (next: seq<MonthTotal>)
    ensures m in AccMonths(acc) ==> |next| == |acc|
    ensures m !in AccMonths(acc) ==> next == acc + [MonthTotal(m, index + 1)]
  {
    match FindMonth(acc, m)
    case Some(j) => acc[j := acc[j].(total := acc[j].total + 1)]
    case None => acc + [MonthTotal(m, index + 1)]
  }

  /** One step of the reduce keeps `TrendOf` for the prefix one student longer. */
  lemma TrendStep(ms: seq<string>, k: nat, acc: seq<MonthTotal>)
    requires k < |ms| && TrendOf(ms[..k], acc)
    ensures TrendOf(ms[..k + 1], Step(acc, ms[k], k))
  {
    if ms[k] in AccMonths(acc) {
      TrendStepFound(ms, k, acc);
    } else {
      TrendStepNew(ms, k, acc);
    }
  }

  /** A month seen for the first time is pushed with total `index + 1`, and `TrendOf` holds one student further. */
  lemma TrendStepNew(ms: seq<string>, k: nat, acc: seq<MonthTotal>)
    requires k < |ms| && TrendOf(ms[..k], acc) && ms[k] !in AccMonths(acc)
    ensures TrendOf(ms[..k + 1], Step(acc, ms[k], k))
  {
    var m, pre, post := ms[k], ms[..k], ms[..k + 1];
    var next := acc + [MonthTotal(m, k + 1)];
    assert Step(acc, m, k) == next;
    assert post == pre + [m];
    assert m !in pre;
    FirstIndexNew(ms, k);
    OccurrencesExtend(ms, k, m);
    assert AccMonths(next) == AccMonths(acc) + [m];
    forall j | 0 <= j < |acc|
      ensures acc[j].month in pre && acc[j].month in post && acc[j].month != m
      ensures FirstIndex(post, acc[j].month) == FirstIndex(pre, acc[j].month) < k
      ensures Occurrences(post, acc[j].month) == Occurrences(pre, acc[j].month)
    {
      var x := acc[j].month;
      assert x == AccMonths(acc)[j];
      FirstIndexExtend(ms, k, x);
      OccurrencesExtend(ms, k, x);
    }
    assert next[|acc|].month == m;
  }

  /** A month already present has its total raised by one, and `TrendOf` holds one student further. */
  lemma TrendStepFound(ms: seq<string>, k: nat, acc: seq<MonthTotal>)
    requires k < |ms| && TrendOf(ms[..k], acc) && ms[k] in AccMonths(acc)
    ensures TrendOf(ms[..k + 1], Step(acc, ms[k], k))
  {
    var j := FindMonth(acc, ms[k]).value;
    assert Step(acc, ms[k], k) == acc[j := acc[j].(total := acc[j].total + 1)];
    TrendStepExisting(ms, k, acc, j);
  }

  lemma TrendStepExisting(ms: seq<string>, k: nat, acc: seq<MonthTotal>, j: nat)
    requires k < |ms| && TrendOf(ms[..k], acc) && j < |acc| && acc[j].month == ms[k]
    ensures TrendOf(ms[..k + 1], acc[j := acc[j].(total := acc[j].total + 1)])
  {
    var m, pre, post := ms[k], ms[..k], ms[..k + 1];
    var next := acc[j := acc[j].(total := acc[j].total + 1)];
    assert post == pre + [m];
    assert AccMonths(next) == AccMonths(acc);
    forall i | 0 <= i < |acc|
      ensures acc[i].month in pre && acc[i].month in post
      ensures FirstIndex(post, acc[i].month) == FirstIndex(pre, acc[i].month)
      ensures Occurrences(post, acc[i].month) == Occurrences(pre, acc[i].month) + (if i == j then 1 else 0)
    {
      var x := acc[i].month;
      assert x == AccMonths(acc)[i];
      FirstIndexExtend(ms, k, x);
      OccurrencesExtend(ms, k, x);
      if i != j {
        assert AccMonths(acc)[i] != AccMonths(acc)[j];
      }
    }
  }

  lemma TrendEmpty(ms: seq<string>)
    ensures TrendOf(ms[..0], [])
  {
    assert AccMonths([]) == [];
  }

  /** `students.sort((a, b) => new Date(a.createdAt) - new Date(b.createdAt))`. */
  function ByCreation(students: seq<StudentRow>): (r: seq<StudentRow>)
    ensures multiset(r) == multiset(students)
    ensures Sorted(r, Ascending(CreatedKey))
  {
    AscendingTotal(CreatedKey);
    SortBy(students, Ascending(CreatedKey))
  }

  /**
   * `studentEnrollmentTrend`: the students by creation date, reduced to month totals, of which
   * the last six are kept. `all` is what the reduce returns before `.slice(-6)`.
   */
  method EnrollmentTrend(students: seq<StudentRow>, monthOf: int -> string) returns (trend: seq<MonthTotal>, all: seq<MonthTotal>)
    ensures TrendOf(MonthsOf(ByCreation(students), monthOf), all)
    ensures |trend| == Min(6, |all|)
    ensures trend == all[|all| - |trend|..]
  {
    var ms := MonthsOf(ByCreation(students), monthOf);
    all := [];
    var k := 0;
    TrendEmpty(ms);
    while k < |ms|
      invariant 0 <= k <= |ms|
      invariant TrendOf(ms[..k], all)
    {
      TrendStep(ms, k, all);
      all := Step(all, ms[k], k);
      k := k + 1;
    }
    assert ms[..k] == ms;
    SliceTail(all, 6);
    trend := Slice(all, -6, |all|);
  }
}
