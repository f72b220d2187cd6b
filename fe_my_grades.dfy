/**
 * A student's own grades (`MyGrades.jsx`): the summary figures and the chart rows. The same
 * figures appear on the student dashboard, which imports them. A missing course name or code
 * is "".
 */
module FrontMyGrades {
  import opened Wrappers
  import opened Text
  import opened Seqs

  datatype MyGrade = MyGrade(courseName: string, courseCode: string, grade: real, date: int)

  function Sum(gs: seq<MyGrade>): real
    decreases |gs|
  {
    if gs == [] then 0.0 else gs[0].grade + Sum(gs[1..])
  }

  /** `Math.max(...grades.map(g => g.grade))` for a non-empty list: the largest grade. */
  function MaxGrade(gs: seq<MyGrade>): (m: real)
    requires gs != []
    ensures exists i :: 0 <= i < |gs| && gs[i].grade == m
    ensures forall i :: 0 <= i < |gs| ==> gs[i].grade <= m
    decreases |gs|
  {
    if |gs| == 1 then gs[0].grade
    else
      var rest := MaxGrade(gs[1..]);
      assert forall i :: 1 <= i < |gs| ==> gs[i] == gs[1..][i - 1];
      if gs[0].grade >= rest then gs[0].grade else rest
  }

  predicate Passed(g: MyGrade) {
    g.grade >= 10.0
  }

  datatype Stats = Stats(total: nat, moyenne: real, reussites: nat, max: real)

  /**
   * `stats`: the number of grades, their mean, how many are at least 10, and the largest;
   * the mean and the largest are 0 without grades.
   */
  function StatsOf(gs: seq<MyGrade>): (s: Stats)
    ensures s.total == |gs|
    ensures s.reussites == Count(gs, Passed) <= s.total
    ensures gs == [] ==> s.moyenne == 0.0 && s.max == 0.0
    ensures gs != [] ==> s.moyenne * (|gs| as real) == Sum(gs)
    ensures gs != [] ==> (exists i :: 0 <= i < |gs| && gs[i].grade == s.max) &&
                         (forall i :: 0 <= i < |gs| ==> gs[i].grade <= s.max)
  {
    if gs == [] then Stats(0, 0.0, 0, 0.0)
    else Stats(|gs|, Sum(gs) / (|gs| as real), Count(gs, Passed), MaxGrade(gs))
  }

  /** Grades at most m sum to at most m times their number. */
  lemma {:induction false} SumAtMostMax(gs: seq<MyGrade>, m: real)
    requires forall i :: 0 <= i < |gs| ==> gs[i].grade <= m
    ensures Sum(gs) <= m * (|gs| as real)
    decreases |gs|
  {
    if gs != [] {
      SumAtMostMax(gs[1..], m);
    }
  }

  lemma DivideBound(a: real, m: real, n: real, t: real)
    requires n > 0.0 && a * n == t && t <= m * n
    ensures a <= m
  {
  }

  lemma MeanAtMostMax(gs: seq<MyGrade>)
    requires gs != []
    ensures StatsOf(gs).moyenne <= StatsOf(gs).max
  {
    var s := StatsOf(gs);
    var n := |gs| as real;
    var total := Sum(gs);
    SumAtMostMax(gs, s.max);
    assert n > 0.0;
    DivideBound(s.moyenne, s.max, n, total);
  }

  datatype ChartRow = ChartRow(course: string, note: real)

  /** `g.course?.name?.substring(0, 15) || 'N/A'`. */
  function CourseLabel(name: string): (shown: string)
    ensures name == "" ==> shown == "N/A"
    ensures name != "" ==> shown == Prefix(name, 15) && 0 < |shown| <= 15
  {
    if Prefix(name, 15) != "" then Prefix(name, 15) else "N/A"
  }

  /** `chartData`: one row per grade, in order, with the grade as note. */
  function ChartData(gs: seq<MyGrade>): (rows: seq<ChartRow>)
    ensures |rows| == |gs|
    ensures forall i :: 0 <= i < |gs| ==> rows[i] == ChartRow(CourseLabel(gs[i].courseName), gs[i].grade)
  {
    seq(|gs|, i requires 0 <= i < |gs| => ChartRow(CourseLabel(gs[i].courseName), gs[i].grade))
  }

  class MyGradesPage {
    var grades: seq<MyGrade>
    var loading: bool

    constructor ()
      ensures grades == [] && loading
    {
      grades, loading := [], true;
    }

    /** `loadGrades`: the reply's list, or none when the reply has no list or the request failed. */
    method Loaded(loaded: Option<seq<MyGrade>>)
      modifies this
      ensures grades == (if loaded.Some? then loaded.value else [])
      ensures !loading
    {
      loading := true;
      grades := if loaded.Some? then loaded.value else [];
      loading := false;
    }
  }
}
