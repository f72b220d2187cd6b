/**
 * The four collections as in-memory maps from record id to record, with the unique
 * indexes as an invariant, the queries the handlers issue as read-only methods, and
 * the writes (`save`, `findByIdAndUpdate`, `findByIdAndDelete`, ...) as methods that
 * check schema rules and unique indexes the way the database does.
 */
module Database {
  import opened Wrappers
  import opened Model

  /** Why a write was refused: a schema rule, a unique index (code 11000), or a vanished record. */
  datatype SaveError = ValidationError | DuplicateKey | DocumentNotFound

  datatype Saved = Saved(id: Id) | NotSaved(error: SaveError)

  // ---------------------------------------------------------------------------
  // Unique indexes

  /** `clerkId` is unique among users. */
  predicate ClerkIdsUnique(users: map<Id, User>) {
    forall a, b :: a in users && b in users && users[a].clerkId == users[b].clerkId ==> a == b
  }

  /** `email` and `studentNumber` are each unique among students. */
  predicate StudentKeysUnique(students: map<Id, Student>) {
    (forall a, b :: a in students && b in students && students[a].email == students[b].email ==> a == b) &&
    (forall a, b :: a in students && b in students && students[a].studentNumber == students[b].studentNumber ==> a == b)
  }

  /** `code` is unique among courses. */
  predicate CourseCodesUnique(courses: map<Id, Course>) {
    forall a, b :: a in courses && b in courses && courses[a].code == courses[b].code ==> a == b
  }

  /** The compound index on (student, course): at most one grade per pair. */
  predicate GradePairsUnique(grades: map<Id, Grade>) {
    forall a, b ::
      (a in grades && b in grades && grades[a].student == grades[b].student && grades[a].course == grades[b].course) ==> a == b
  }

  /** Every stored grade passed the schema's min/max validators. */
  predicate GradesInRange(grades: map<Id, Grade>) {
    forall id :: id in grades ==> GradeInRange(grades[id].grade)
  }

  // ---------------------------------------------------------------------------
  // Conflicts a write would cause

  /** Some student other than `self` has this email. */
  predicate EmailTaken(students: map<Id, Student>, email: string, self: Option<Id>) {
    exists id :: id in students && Some(id) != self && students[id].email == email
  }

  /** Storing `s` under `self` (None: a new record) would break a unique index on students. */
  predicate StudentClash(students: map<Id, Student>, s: Student, self: Option<Id>) {
    EmailTaken(students, s.email, self) ||
    exists id :: id in students && Some(id) != self && students[id].studentNumber == s.studentNumber
  }

  /** A stored student saved again with its email and number unchanged breaks no unique index. */
  lemma SameKeysNoClash(students: map<Id, Student>, id: Id, s: Student)
    requires StudentKeysUnique(students) && id in students
    requires s.email == students[id].email && s.studentNumber == students[id].studentNumber
    ensures !StudentClash(students, s, Some(id))
  {
  }

  /** Some course other than `self` has this code. */
  predicate CodeTaken(courses: map<Id, Course>, code: string, self: Option<Id>) {
    exists id :: id in courses && Some(id) != self && courses[id].code == code
  }

  /** A grade for this (student, course) pair is stored. */
  predicate PairTaken(grades: map<Id, Grade>, student: Id, course: Id) {
    exists id :: id in grades && grades[id].student == student && grades[id].course == course
  }

  /** Some user has this Clerk id. */
  predicate ClerkIdTaken(users: map<Id, User>, clerkId: string) {
    exists id :: id in users && users[id].clerkId == clerkId
  }

  class Db {
    var users: map<Id, User>
    var students: map<Id, Student>
    var courses: map<Id, Course>
    var grades: map<Id, Grade>
    /** The next fresh record id. */
    var nextId: nat

    ghost predicate Valid()
      reads this
    {
      (forall id :: id in users ==> id < nextId) &&
      (forall id :: id in students ==> id < nextId) &&
      (forall id :: id in courses ==> id < nextId) &&
      (forall id :: id in grades ==> id < nextId) &&
      ClerkIdsUnique(users) && StudentKeysUnique(students) && CourseCodesUnique(courses) &&
      GradePairsUnique(grades) && GradesInRange(grades)
    }

    constructor ()
      ensures Valid()
      ensures users == map[] && students == map[] && courses == map[] && grades == map[]
    {
      users, students, courses, grades := map[], map[], map[], map[];
      nextId := 0;
    }

    // -------------------------------------------------------------------------
    // Queries

    /** `Student.findOne({ email, _id: { $ne: except } })`. */
    method FindStudentByEmail(email: string, except: Option<Id>) returns (r: Option<Id>)
      ensures r.Some? ==> r.value in students && students[r.value].email == email && Some(r.value) != except
      ensures r.None? <==> !EmailTaken(students, email, except)
    {
      var keys := students.Keys;
      while keys != {}
        invariant keys <= students.Keys
        invariant forall id :: id in students && id !in keys && Some(id) != except ==> students[id].email != email
        decreases |keys|
      {
        var id :| id in keys;
        if students[id].email == email && Some(id) != except {
          return Some(id);
        }
        keys := keys - {id};
      }
      return None;
    }

    /** The unique index on `studentNumber`: another student holding this number. */
    method FindStudentByNumber(number: string, except: Option<Id>) returns (r: Option<Id>)
      ensures r.Some? ==> r.value in students && students[r.value].studentNumber == number && Some(r.value) != except
      ensures r.None? <==> !(exists id :: id in students && Some(id) != except && students[id].studentNumber == number)
    {
      var keys := students.Keys;
      while keys != {}
        invariant keys <= students.Keys
        invariant forall id :: id in students && id !in keys && Some(id) != except ==> students[id].studentNumber != number
        decreases |keys|
      {
        var id :| id in keys;
        if students[id].studentNumber == number && Some(id) != except {
          return Some(id);
        }
        keys := keys - {id};
      }
      return None;
    }

    /** `Course.findOne({ code, _id: { $ne: except } })`. */
    method FindCourseByCode(code: string, except: Option<Id>) returns (r: Option<Id>)
      ensures r.Some? ==> r.value in courses && courses[r.value].code == code && Some(r.value) != except
      ensures r.None? <==> !CodeTaken(courses, code, except)
    {
      var keys := courses.Keys;
      while keys != {}
        invariant keys <= courses.Keys
        invariant forall id :: id in courses && id !in keys && Some(id) != except ==> courses[id].code != code
        decreases |keys|
      {
        var id :| id in keys;
        if courses[id].code == code && Some(id) != except {
          return Some(id);
        }
        keys := keys - {id};
      }
      return None;
    }

    /** `Grade.findOne({ student, course })`. */
    method FindGrade(student: Id, course: Id) returns (r: Option<Id>)
      ensures r.Some? ==> r.value in grades && grades[r.value].student == student && grades[r.value].course == course
      ensures r.None? <==> !PairTaken(grades, student, course)
    {
      var keys := grades.Keys;
      while keys != {}
        invariant keys <= grades.Keys
        invariant forall id :: id in grades && id !in keys ==> !(grades[id].student == student && grades[id].course == course)
        decreases |keys|
      {
        var id :| id in keys;
        if grades[id].student == student && grades[id].course == course {
          return Some(id);
        }
        keys := keys - {id};
      }
      return None;
    }

    /** `User.findOne({ clerkId })`; the unique index makes the answer unique. */
    method FindUserByClerkId(clerkId: string) returns (r: Option<Id>)
      ensures r.Some? ==> r.value in users && users[r.value].clerkId == clerkId
      ensures r.None? <==> !ClerkIdTaken(users, clerkId)
    {
      var keys := users.Keys;
      while keys != {}
        invariant keys <= users.Keys
        invariant forall id :: id in users && id !in keys ==> users[id].clerkId != clerkId
        decreases |keys|
      {
        var id :| id in keys;
        if users[id].clerkId == clerkId {
          return Some(id);
        }
        keys := keys - {id};
      }
      return None;
    }

    // -------------------------------------------------------------------------
    // Writes to grades

    /** `new Grade(g).save()`: the range validators, then the (student, course) index. */
    method InsertGrade(g: Grade) returns (r: Saved)
      requires Valid()
      modifies this
      ensures Valid()
      ensures !GradeInRange(g.grade) ==> r == NotSaved(ValidationError)
      ensures GradeInRange(g.grade) && PairTaken(old(grades), g.student, g.course) ==> r == NotSaved(DuplicateKey)
      ensures GradeInRange(g.grade) && !PairTaken(old(grades), g.student, g.course) ==> r == Saved(old(nextId))
      ensures r.Saved? ==> grades == old(grades)[r.id := g] && nextId == old(nextId) + 1
      ensures r.NotSaved? ==> grades == old(grades) && nextId == old(nextId)
      ensures users == old(users) && students == old(students) && courses == old(courses)
    {
      if !GradeInRange(g.grade) {
        return NotSaved(ValidationError);
      }
      var existing := FindGrade(g.student, g.course);
      if existing.Some? {
        return NotSaved(DuplicateKey);
      }
      r := Saved(nextId);
      grades := grades[nextId := g];
      nextId := nextId + 1;
    }

    /** `Grade.findByIdAndUpdate(id, { grade, date }, { runValidators: true })`. */
    method UpdateGrade(id: Id, value: real, date: int) returns (r: Result)
      requires Valid()
      modifies this
      ensures Valid()
      ensures !GradeInRange(value) ==> r == Failed(ValidationError) && grades == old(grades)
      ensures GradeInRange(value) && id !in old(grades) ==> r == Missing && grades == old(grades)
      ensures GradeInRange(value) && id in old(grades) ==>
        r == Updated && grades == old(grades)[id := old(grades)[id].(grade := value, date := date)]
      ensures users == old(users) && students == old(students) && courses == old(courses) && nextId == old(nextId)
    {
      if !GradeInRange(value) {
        return Failed(ValidationError);
      }
      if id !in grades {
        return Missing;
      }
      grades := grades[id := grades[id].(grade := value, date := date)];
      return Updated;
    }

    /** `Grade.findByIdAndDelete(id)`: whether a grade was found (and removed). */
    method DeleteGrade(id: Id) returns (found: bool)
      requires Valid()
      modifies this
      ensures Valid()
      ensures found == (id in old(grades))
      ensures grades == old(grades) - {id}
      ensures users == old(users) && students == old(students) && courses == old(courses) && nextId == old(nextId)
    {
      found := id in grades;
      grades := grades - {id};
    }

    // -------------------------------------------------------------------------
    // Writes to courses

    /** `new Course(c).save()`: the required fields, then the unique code. */
    method InsertCourse(c: Course) returns (r: Saved)
      requires Valid()
      modifies this
      ensures Valid()
      ensures !CourseSchemaValid(c) ==> r == NotSaved(ValidationError)
      ensures CourseSchemaValid(c) && CodeTaken(old(courses), c.code, None) ==> r == NotSaved(DuplicateKey)
      ensures CourseSchemaValid(c) && !CodeTaken(old(courses), c.code, None) ==> r == Saved(old(nextId))
      ensures r.Saved? ==> courses == old(courses)[r.id := c] && nextId == old(nextId) + 1
      ensures r.NotSaved? ==> courses == old(courses) && nextId == old(nextId)
      ensures users == old(users) && students == old(students) && grades == old(grades)
    {
      if !CourseSchemaValid(c) {
        return NotSaved(ValidationError);
      }
      var existing := FindCourseByCode(c.code, None);
      if existing.Some? {
        return NotSaved(DuplicateKey);
      }
      r := Saved(nextId);
      courses := courses[nextId := c];
      nextId := nextId + 1;
    }

    /**
     * `Course.findByIdAndUpdate(id, patch, { runValidators: true })`: the validators check only
     * the fields the patch sets (an empty name or code fails), before the lookup; then the
     * unique code index.
     */
    method UpdateCourse(id: Id, name: Option<string>, code: Option<string>, description: Option<string>,
                        credits: Option<int>) returns (r: Result)
      requires Valid()
      modifies this
      ensures Valid()
      ensures name == Some("") || code == Some("") ==> r == Failed(ValidationError)
      ensures name != Some("") && code != Some("") && id !in old(courses) ==> r == Missing
      ensures (name != Some("") && code != Some("") && id in old(courses) && code.Some? &&
        CodeTaken(old(courses), code.value, Some(id))) ==> r == Failed(DuplicateKey)
      ensures r == Updated <==> (name != Some("") && code != Some("") && id in old(courses) &&
        !(code.Some? && CodeTaken(old(courses), code.value, Some(id))))
      ensures r == Updated ==> courses == old(courses)[id := PatchedCourse(old(courses)[id], name, code, description, credits)]
      ensures r != Updated ==> courses == old(courses)
      ensures users == old(users) && students == old(students) && grades == old(grades) && nextId == old(nextId)
    {
      if name == Some("") || code == Some("") {
        return Failed(ValidationError);
      }
      if id !in courses {
        return Missing;
      }
      if code.Some? {
        var clash := FindCourseByCode(code.value, Some(id));
        if clash.Some? {
          return Failed(DuplicateKey);
        }
      }
      courses := courses[id := PatchedCourse(courses[id], name, code, description, credits)];
      return Updated;
    }

    /** `Course.findByIdAndDelete(id)`; grades of the course are left in place. */
    method DeleteCourse(id: Id) returns (found: bool)
      requires Valid()
      modifies this
      ensures Valid()
      ensures found == (id in old(courses))
      ensures courses == old(courses) - {id}
      ensures users == old(users) && students == old(students) && grades == old(grades) && nextId == old(nextId)
    {
      found := id in courses;
      courses := courses - {id};
    }

    // -------------------------------------------------------------------------
    // Writes to students

    /**
     * `doc.save()`: validation of the whole record first; then the two pre-save hooks,
     * which change the document in place even if the write then fails; then the unique
     * indexes; then the insert (new document) or replace (loaded document).
     */
    method SaveStudent(doc: StudentDocument, hash: string -> string, year: nat) returns (r: Saved)
      requires Valid()
      modifies this, doc
      ensures Valid()
      ensures !StudentSchemaValid(old(doc.Record())) ==>
        r == NotSaved(ValidationError) && doc.Record() == old(doc.Record()) && doc.passwordModified == old(doc.passwordModified)
      ensures StudentSchemaValid(old(doc.Record())) ==>
        doc.Record() == StudentNumberHook(HashPasswordHook(old(doc.Record()), old(doc.passwordModified), hash), year, |old(students)|)
      ensures StudentSchemaValid(old(doc.Record())) && old(doc.id).Some? && old(doc.id).value !in old(students) ==>
        r == NotSaved(DocumentNotFound)
      ensures StudentSchemaValid(old(doc.Record())) && (old(doc.id).None? || old(doc.id).value in old(students)) ==>
        (r == NotSaved(DuplicateKey) <==> StudentClash(old(students), doc.Record(), old(doc.id)))
      ensures StudentSchemaValid(old(doc.Record())) && (old(doc.id).None? || old(doc.id).value in old(students)) ==>
        (r.Saved? <==> !StudentClash(old(students), doc.Record(), old(doc.id)))
      ensures r.Saved? ==> StudentSchemaValid(old(doc.Record()))
      ensures r.Saved? && old(doc.id).None? ==> r.id == old(nextId) && nextId == old(nextId) + 1
      ensures r.Saved? && old(doc.id).Some? ==> r.id == old(doc.id).value && nextId == old(nextId)
      ensures r.Saved? ==> students == old(students)[r.id := doc.Record()] && doc.id == Some(r.id) && !doc.passwordModified
      ensures r.NotSaved? ==> students == old(students) && nextId == old(nextId) && doc.id == old(doc.id)
      ensures users == old(users) && courses == old(courses) && grades == old(grades)
    {
      if !StudentSchemaValid(doc.Record()) {
        return NotSaved(ValidationError);
      }
      var count := |students|;
      doc.RunHashPasswordHook(hash);
      doc.RunStudentNumberHook(year, count);
      if doc.id.Some? && doc.id.value !in students {
        return NotSaved(DocumentNotFound);
      }
      var rec := doc.Record();
      var byEmail := FindStudentByEmail(rec.email, doc.id);
      var byNumber := FindStudentByNumber(rec.studentNumber, doc.id);
      if byEmail.Some? || byNumber.Some? {
        return NotSaved(DuplicateKey);
      }
      var id: Id;
      if doc.id.Some? {
        id := doc.id.value;
      } else {
        id := nextId;
        nextId := nextId + 1;
      }
      students := students[id := rec];
      doc.MarkSaved(id);
      return Saved(id);
    }

    /**
     * Loads the student stored under `id`, changes it to `s` (`passwordModified` when the
     * password was assigned) and saves it: `save()` on a loaded document.
     */
    method ResaveStudent(id: Id, s: Student, passwordModified: bool, hash: string -> string, year: nat)
      returns (r: Saved, rec: Student)
      requires Valid() && id in students
      requires !passwordModified ==> s.password == students[id].password
      modifies this
      ensures Valid()
      ensures !StudentSchemaValid(s) ==> r == NotSaved(ValidationError)
      ensures StudentSchemaValid(s) ==> rec == StudentNumberHook(HashPasswordHook(s, passwordModified, hash), year, |old(students)|)
      ensures StudentSchemaValid(s) ==> (r.Saved? <==> !StudentClash(old(students), rec, Some(id)))
      ensures r.Saved? ==> r.id == id && students == old(students)[id := rec]
      ensures r.NotSaved? ==> students == old(students)
      ensures users == old(users) && courses == old(courses) && grades == old(grades) && nextId == old(nextId)
    {
      var doc := new StudentDocument.Load(id, s.(password := students[id].password));
      if passwordModified {
        doc.SetPassword(s.password);
      }
      assert doc.Record() == s && doc.passwordModified == passwordModified && doc.id == Some(id);
      r := SaveStudent(doc, hash, year);
      rec := doc.Record();
    }

    /**
     * `Student.findByIdAndUpdate(id, patch, { runValidators: true })` where the patch sets
     * the fields that are present: update validators reject an empty required field before
     * the lookup, then the unique email index is checked.
     */
    method UpdateStudentFields(id: Id, firstName: Option<string>, lastName: Option<string>, email: Option<string>)
      returns (r: Result)
      requires Valid()
      modifies this
      ensures Valid()
      ensures PatchEmpties(firstName, lastName, email) ==> r == Failed(ValidationError) && students == old(students)
      ensures !PatchEmpties(firstName, lastName, email) && id !in old(students) ==> r == Missing && students == old(students)
      ensures (!PatchEmpties(firstName, lastName, email) && id in old(students) && email.Some? &&
        EmailTaken(old(students), email.value, Some(id))) ==> r == Failed(DuplicateKey) && students == old(students)
      ensures r == Updated <==> (!PatchEmpties(firstName, lastName, email) && id in old(students) &&
        !(email.Some? && EmailTaken(old(students), email.value, Some(id))))
      ensures r == Updated ==> students == old(students)[id := Patched(old(students)[id], firstName, lastName, email)]
      ensures users == old(users) && courses == old(courses) && grades == old(grades) && nextId == old(nextId)
    {
      if PatchEmpties(firstName, lastName, email) {
        return Failed(ValidationError);
      }
      if id !in students {
        return Missing;
      }
      if email.Some? {
        var clash := FindStudentByEmail(email.value, Some(id));
        if clash.Some? {
          return Failed(DuplicateKey);
        }
      }
      students := students[id := Patched(students[id], firstName, lastName, email)];
      return Updated;
    }

    /** `Student.findByIdAndDelete(id)`; grades of the student are left in place. */
    method DeleteStudent(id: Id) returns (found: bool)
      requires Valid()
      modifies this
      ensures Valid()
      ensures found == (id in old(students))
      ensures students == old(students) - {id}
      ensures users == old(users) && courses == old(courses) && grades == old(grades) && nextId == old(nextId)
    {
      found := id in students;
      students := students - {id};
    }

    // -------------------------------------------------------------------------
    // Writes to users

    /** `new User(u).save()`: the required fields and role enum, then the unique clerkId. */
    method InsertUser(u: User) returns (r: Saved)
      requires Valid()
      modifies this
      ensures Valid()
      ensures !UserSchemaValid(u) ==> r == NotSaved(ValidationError)
      ensures UserSchemaValid(u) && ClerkIdTaken(old(users), u.clerkId) ==> r == NotSaved(DuplicateKey)
      ensures UserSchemaValid(u) && !ClerkIdTaken(old(users), u.clerkId) ==> r == Saved(old(nextId))
      ensures r.Saved? ==> users == old(users)[r.id := u] && nextId == old(nextId) + 1
      ensures r.NotSaved? ==> users == old(users) && nextId == old(nextId)
      ensures students == old(students) && courses == old(courses) && grades == old(grades)
    {
      if !UserSchemaValid(u) {
        return NotSaved(ValidationError);
      }
      var existing := FindUserByClerkId(u.clerkId);
      if existing.Some? {
        return NotSaved(DuplicateKey);
      }
      r := Saved(nextId);
      users := users[nextId := u];
      nextId := nextId + 1;
    }

    /**
     * Replaces a stored user with `u` without running validators (`findOneAndUpdate`,
     * `findByIdAndUpdate` without `runValidators`, or a save that changes no validated
     * path); the clerkId must stay the same.
     */
    method ReplaceUser(id: Id, u: User)
      requires Valid()
      requires id in users && u.clerkId == users[id].clerkId
      modifies this
      ensures Valid()
      ensures users == old(users)[id := u]
      ensures students == old(students) && courses == old(courses) && grades == old(grades) && nextId == old(nextId)
    {
      users := users[id := u];
    }

    /** `User.findOneAndDelete({ _id: id })`. */
    method DeleteUser(id: Id)
      requires Valid()
      modifies this
      ensures Valid()
      ensures users == old(users) - {id}
      ensures students == old(students) && courses == old(courses) && grades == old(grades) && nextId == old(nextId)
    {
      users := users - {id};
    }
  }

  /** The keys of a collection, each once, in no particular order (the order of a `find()` without `sort`). */
  method KeysOf<V>(m: map<Id, V>) returns (ids: seq<Id>)
    ensures forall id :: id in ids <==> id in m
    ensures forall i, j :: 0 <= i < j < |ids| ==> ids[i] != ids[j]
    ensures |ids| == |m|
  {
    var keys := m.Keys;
    ids := [];
    while keys != {}
      invariant keys <= m.Keys
      invariant forall id :: id in ids <==> id in m && id !in keys
      invariant forall i, j :: 0 <= i < j < |ids| ==> ids[i] != ids[j]
      invariant |ids| + |keys| == |m.Keys|
      decreases |keys|
    {
      var id :| id in keys;
      ids := ids + [id];
      keys := keys - {id};
    }
  }

  /** The records of a collection with their ids (`Model.find()`), each once, in no particular order. */
  method EntriesOf<V>(m: map<Id, V>) returns (entries: seq<(Id, V)>)
    ensures forall e :: e in entries <==> e.0 in m && m[e.0] == e.1
    ensures forall i, j :: 0 <= i < j < |entries| ==> entries[i].0 != entries[j].0
    ensures |entries| == |m|
  {
    var ids := KeysOf(m);
    entries := seq(|ids|, i requires 0 <= i < |ids| => (ids[i], m[ids[i]]));
    forall id | id in m
      ensures (id, m[id]) in entries
    {
      var i :| 0 <= i < |ids| && ids[i] == id;
      assert entries[i] == (id, m[id]);
    }
  }

  /** The outcome of an update by id. */
  datatype Result = Updated | Missing | Failed(error: SaveError)

  /** A course with the present fields of the patch applied. */
  function PatchedCourse(c: Course, name: Option<string>, code: Option<string>, description: Option<string>,
                         credits: Option<int>): (r: Course)
    ensures r.name == name.GetOr(c.name) && r.code == code.GetOr(c.code)
    ensures r.description == description.GetOr(c.description) && r.credits == credits.GetOr(c.credits)
    ensures name.None? && code.None? && description.None? && credits.None? ==> r == c
  {
    Course(name.GetOr(c.name), code.GetOr(c.code), description.GetOr(c.description), credits.GetOr(c.credits))
  }

  /** A patch that sets a required field to "" fails the update validators. */
  predicate PatchEmpties(firstName: Option<string>, lastName: Option<string>, email: Option<string>) {
    firstName == Some("") || lastName == Some("") || email == Some("")
  }

  /** A student with the present fields of the patch applied (absent fields are left out of the update). */
  function Patched(s: Student, firstName: Option<string>, lastName: Option<string>, email: Option<string>): (r: Student)
    ensures r.password == s.password && r.studentNumber == s.studentNumber && r.isActive == s.isActive
    ensures r.firstName == firstName.GetOr(s.firstName) && r.lastName == lastName.GetOr(s.lastName)
    ensures r.email == email.GetOr(s.email)
    ensures firstName.None? && lastName.None? && email.None? ==> r == s
  {
    s.(firstName := firstName.GetOr(s.firstName), lastName := lastName.GetOr(s.lastName), email := email.GetOr(s.email))
  }
}
