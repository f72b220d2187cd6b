/**
 * The grade handlers: `create`, `update`, `delete`, `getAll` and `getMyGrades`.
 *
 * A request field that is absent is None; the clock (`new Date()`) is the parameter `now`.
 * The notification the handlers try to send calls `emailService.sendGradeNotification`,
 * a name the mail service does not export (it exports `sendGradeNotificationEmail`), so
 * the call throws, the inner `catch` swallows it, and no notification is ever sent.
 */
module GradeRoutes {
  import opened Wrappers
  import opened Seqs
  import opened Model
  import opened Database
  import opened Http

  const FieldsRequired: string := "Étudiant, cours et note requis"
  const GradeRequired: string := "Note requise"
  const OutOfRange: string := "La note doit être entre 0 et 20"
  const StudentNotFound: string := "Étudiant non trouvé"
  const CourseNotFound: string := "Cours non trouvé"
  const AlreadyGraded: string := "Une note existe déjà pour cet étudiant dans ce cours. Utilisez la mise à jour."
  const DuplicateGrade: string := "Une note existe déjà pour cet étudiant dans ce cours"
  const GradeNotFound: string := "Note non trouvée"
  const GradeDeleted: string := "Note supprimée avec succès"
  const AccessDenied: string := "Accès non autorisé"

  /** The functions the mail service exports. */
  const MailExports: seq<string> := [
    "sendGradeNotificationEmail", "sendAdminToStudentEmail", "sendStudentToAdminEmail",
    "sendWelcomeWithCredentials", "sendPasswordResetEmail"]

  /** The name the grade handlers call, and whether calling it can succeed. */
  const NotificationCall: string := "sendGradeNotification"

  /** Calling a name that is not exported throws, so the handlers' notification never goes out. */
  function NotificationSent(name: string): (sent: bool)
    ensures sent <==> name in MailExports
  {
    name in MailExports
  }

  /** The handlers call a name the service does not export. */
  lemma NotificationAlwaysFails()
    ensures !NotificationSent(NotificationCall)
    ensures NotificationSent("sendGradeNotificationEmail")
  {
    assert MailExports[0] == "sendGradeNotificationEmail";
    assert forall i :: 0 <= i < |MailExports| ==> MailExports[i] != NotificationCall;
  }

  /**
   * `create`: 400 when a field is missing, 400 when the grade is outside [0, 20], 404 for an
   * unknown student, then for an unknown course, 400 when a grade for the pair exists; else
   * one grade is added and the reply is 201. An existing grade is never changed.
   */
  method Create(db: Db, student: Option<Id>, course: Option<Id>, grade: Option<real>, now: int)
    returns (reply: Reply<(Id, Grade)>, notified: bool)
    requires db.Valid()
    modifies db
    ensures db.Valid()
    ensures student.None? || course.None? || grade.None? ==> reply == Err(400, FieldsRequired)
    ensures (student.Some? && course.Some? && grade.Some? && !GradeInRange(grade.value)) ==>
      reply == Err(400, OutOfRange)
    ensures (student.Some? && course.Some? && grade.Some? && GradeInRange(grade.value) &&
      student.value !in old(db.students)) ==> reply == Err(404, StudentNotFound)
    ensures (student.Some? && course.Some? && grade.Some? && GradeInRange(grade.value) &&
      student.value in old(db.students) && course.value !in old(db.courses)) ==> reply == Err(404, CourseNotFound)
    ensures (student.Some? && course.Some? && grade.Some? && GradeInRange(grade.value) &&
      student.value in old(db.students) && course.value in old(db.courses) &&
      PairTaken(old(db.grades), student.value, course.value)) ==> reply == Err(400, AlreadyGraded)
    ensures reply.Ok? <==> (student.Some? && course.Some? && grade.Some? && GradeInRange(grade.value) &&
      student.value in old(db.students) && course.value in old(db.courses) &&
      !PairTaken(old(db.grades), student.value, course.value))
    ensures reply.Ok? ==> reply.status == 201 && reply.value.0 == old(db.nextId) && reply.value.0 !in old(db.grades)
    ensures reply.Ok? ==> reply.value.1 == Grade(student.value, course.value, grade.value, now)
    ensures reply.Ok? ==> db.grades == old(db.grades)[reply.value.0 := reply.value.1]
    ensures reply.Err? ==> db.grades == old(db.grades)
    ensures forall id :: id in old(db.grades) ==> id in db.grades && db.grades[id] == old(db.grades)[id]
    ensures db.users == old(db.users) && db.students == old(db.students) && db.courses == old(db.courses)
    ensures !notified
  {
    notified := false;
    if student.None? || course.None? || grade.None? {
      return Err(400, FieldsRequired), notified;
    }
    if grade.value < 0.0 || grade.value > 20.0 {
      return Err(400, OutOfRange), notified;
    }
    if student.value !in db.students {
      return Err(404, StudentNotFound), notified;
    }
    if course.value !in db.courses {
      return Err(404, CourseNotFound), notified;
    }
    var existing := db.FindGrade(student.value, course.value);
    if existing.Some? {
      return Err(400, AlreadyGraded), notified;
    }
    var g := Grade(student.value, course.value, grade.value, now);
    var saved := db.InsertGrade(g);
    match saved {
      case NotSaved(DuplicateKey) =>
        return Err(400, DuplicateGrade), notified;
      case NotSaved(_) =>
        return Err(500, ServerError), notified;
      case Saved(id) =>
        notified := NotificationSent(NotificationCall);
        NotificationAlwaysFails();
        return Ok(201, (id, g)), notified;
    }
  }

  /** A second `create` for the same pair is refused and leaves the grade of the first in place. */
  method CreateTwice(db: Db, student: Id, course: Id, first: real, second: real, t1: int, t2: int)
    returns (r1: Reply<(Id, Grade)>, r2: Reply<(Id, Grade)>)
    requires db.Valid()
    modifies db
    ensures r1.Ok? ==> r2.Err? && r2.status == 400 && r1.value.0 in db.grades && db.grades[r1.value.0].grade == first
    ensures r1.Ok? && GradeInRange(second) ==> r2 == Err(400, AlreadyGraded)
  {
    var n1, n2;
    r1, n1 := Create(db, Some(student), Some(course), Some(first), t1);
    if r1.Ok? {
      assert db.grades[r1.value.0] == Grade(student, course, first, t1);
      assert PairTaken(db.grades, student, course);
    }
    r2, n2 := Create(db, Some(student), Some(course), Some(second), t2);
  }

  /**
   * `update`: 400 without a grade, 400 outside [0, 20], 404 for an unknown id; otherwise grade
   * and date of that record change and nothing else. The log line after the write reads the
   * populated student's name, so when that student no longer exists the handler answers 500
   * with the write already done.
   */
  method Update(db: Db, id: Id, grade: Option<real>, now: int) returns (reply: Reply<Grade>, notified: bool)
    requires db.Valid()
    modifies db
    ensures db.Valid()
    ensures grade.None? ==> reply == Err(400, GradeRequired) && db.grades == old(db.grades)
    ensures grade.Some? && !GradeInRange(grade.value) ==> reply == Err(400, OutOfRange) && db.grades == old(db.grades)
    ensures grade.Some? && GradeInRange(grade.value) && id !in old(db.grades) ==>
      reply == Err(404, GradeNotFound) && db.grades == old(db.grades)
    ensures grade.Some? && GradeInRange(grade.value) && id in old(db.grades) ==>
      db.grades == old(db.grades)[id := old(db.grades)[id].(grade := grade.value, date := now)]
    ensures (grade.Some? && GradeInRange(grade.value) && id in old(db.grades) &&
      old(db.grades)[id].student !in db.students) ==> reply == Err(500, ServerError)
    ensures reply.Ok? <==> (grade.Some? && GradeInRange(grade.value) && id in old(db.grades) &&
      old(db.grades)[id].student in db.students)
    ensures reply.Ok? ==> reply == Ok(200, db.grades[id])
    ensures reply.Ok? ==> reply.value.student == old(db.grades)[id].student && reply.value.course == old(db.grades)[id].course
    ensures db.users == old(db.users) && db.students == old(db.students) && db.courses == old(db.courses)
    ensures !notified
  {
    notified := false;
    if grade.None? {
      return Err(400, GradeRequired), notified;
    }
    if grade.value < 0.0 || grade.value > 20.0 {
      return Err(400, OutOfRange), notified;
    }
    var r := db.UpdateGrade(id, grade.value, now);
    if r != Updated {
      return (if r == Missing then Err(404, GradeNotFound) else Err(500, ServerError)), notified;
    }
    var updated := db.grades[id];
    if updated.student !in db.students {
      return Err(500, ServerError), notified;
    }
    notified := NotificationSent(NotificationCall);
    NotificationAlwaysFails();
    return Ok(200, updated), notified;
  }

  /** `delete`: 404 for an unknown id, otherwise that grade is removed and nothing else changes. */
  method Delete(db: Db, id: Id) returns (reply: Reply<string>)
    requires db.Valid()
    modifies db
    ensures db.Valid()
    ensures reply == (if id in old(db.grades) then Ok(200, GradeDeleted) else Err(404, GradeNotFound))
    ensures db.grades == old(db.grades) - {id}
    ensures db.users == old(db.users) && db.students == old(db.students) && db.courses == old(db.courses)
  {
    var found := db.DeleteGrade(id);
    return if found then Ok(200, GradeDeleted) else Err(404, GradeNotFound);
  }

  /** The sort key of `sort({ date: -1 })`. */
  function DateKey(e: (Id, Grade)): (k: real)
    ensures k == e.1.date as real
  {
    e.1.date as real
  }

  /** The stored grades satisfying `keep`, newest first. */
  method ListGrades(db: Db, keep: Grade -> bool) returns (list: seq<(Id, Grade)>)
    ensures forall e :: e in list <==> e.0 in db.grades && db.grades[e.0] == e.1 && keep(e.1)
    ensures forall i, j :: 0 <= i < j < |list| ==> list[i].0 != list[j].0
    ensures Sorted(list, Descending(DateKey))
  {
    var all := EntriesOf(db.grades);
    var kept := Filter(all, (e: (Id, Grade)) => keep(e.1));
    forall e | true
      ensures e in kept <==> e in all && keep(e.1)
    {
      FilterMembership(all, (e: (Id, Grade)) => keep(e.1), e);
    }
    DistinctFilter(all, (e: (Id, Grade)) => keep(e.1));
    DescendingTotal(DateKey);
    list := SortBy(kept, Descending(DateKey));
    assert forall e :: e in list <==> e in multiset(kept);
    DistinctPermutation(kept, list);
    forall i, j | 0 <= i < j < |list| ensures list[i].0 != list[j].0 {
      assert list[i] in list && list[j] in list;
    }
  }

  /** `getAll`: every stored grade once, newest first. */
  method GetAll(db: Db) returns (reply: Reply<seq<(Id, Grade)>>)
    ensures reply.Ok? && reply.status == 200
    ensures forall e :: e in reply.value <==> e.0 in db.grades && db.grades[e.0] == e.1
    ensures forall i, j :: 0 <= i < j < |reply.value| ==> reply.value[i].0 != reply.value[j].0
    ensures Sorted(reply.value, Descending(DateKey))
  {
    var list := ListGrades(db, (g: Grade) => true);
    return Ok(200, list);
  }

  /**
   * `getMyGrades`, behind `getCurrentUser`: 403 unless the request's user is linked to a
   * student that still exists (the populated link is null otherwise); then exactly that
   * student's grades, newest first.
   */
  method GetMyGrades(db: Db, user: Option<Id>) returns (reply: Reply<seq<(Id, Grade)>>)
    requires user.Some? ==> user.value in db.users
    ensures reply.Err? <==> (user.None? || db.users[user.value].studentId.None? ||
      db.users[user.value].studentId.value !in db.students)
    ensures reply.Err? ==> reply == Err(403, AccessDenied)
    ensures reply.Ok? ==> reply.status == 200 && Sorted(reply.value, Descending(DateKey))
    ensures reply.Ok? ==> forall e :: e in reply.value <==>
      e.0 in db.grades && db.grades[e.0] == e.1 && Some(e.1.student) == db.users[user.value].studentId
    ensures reply.Ok? ==> forall i, j :: 0 <= i < j < |reply.value| ==> reply.value[i].0 != reply.value[j].0
  {
    if user.None? || db.users[user.value].studentId.None? || db.users[user.value].studentId.value !in db.students {
      return Err(403, AccessDenied);
    }
    var sid := db.users[user.value].studentId.value;
    var list := ListGrades(db, (g: Grade) => g.student == sid);
    return Ok(200, list);
  }
}
