/**
 * The student handlers: `create`, `update` and `delete` (staff), and `getMyProfile` and
 * `updateMyProfile` (a student signed in with a token; `sid` is the id the token names).
 *
 * Absent body fields of `update` are None; `create` reads its three fields as strings
 * ("" when absent, the way `!field` treats them). The eight random bytes of the temporary
 * password, the password hash, the clock and the current year are parameters.
 */
module StudentRoutes {
  import opened Wrappers
  import opened Text
  import opened Model
  import opened Database
  import opened Http
  import opened EmailService

  const FieldsRequired: string := "Prénom, nom et email requis"
  const EmailExists: string := "Un étudiant avec cet email existe déjà"
  const EmailInUse: string := "Cet email est déjà utilisé"
  const StudentNotFound: string := "Étudiant non trouvé"
  const StudentDeleted: string := "Étudiant supprimé avec succès"
  const ProfileNotFound: string := "Profil non trouvé"

  /** A student as the handlers send it: every stored field except the password. */
  datatype StudentView = StudentView(
    id: Id,
    firstName: string,
    lastName: string,
    email: string,
    studentNumber: string,
    isActive: bool,
    lastLogin: Option<int>,
    userId: Option<Id>,
    createdAt: int)

  function View(id: Id, s: Student): (v: StudentView)
    ensures v.id == id && v.email == s.email && v.studentNumber == s.studentNumber
    ensures v.firstName == s.firstName && v.lastName == s.lastName && v.isActive == s.isActive
    ensures v.lastLogin == s.lastLogin && v.userId == s.userId && v.createdAt == s.createdAt
  {
    StudentView(id, s.firstName, s.lastName, s.email, s.studentNumber, s.isActive, s.lastLogin, s.userId, s.createdAt)
  }

  /** Two records of one student look the same exactly when they differ at most in the password. */
  lemma ViewForgetsOnlyPassword(id: Id, s: Student, t: Student)
    ensures View(id, s) == View(id, t) <==> s.(password := t.password) == t
  {
    if View(id, s) == View(id, t) {
      var v, w := View(id, s), View(id, t);
      assert v.firstName == w.firstName && v.lastName == w.lastName && v.email == w.email;
      assert v.studentNumber == w.studentNumber && v.isActive == w.isActive;
      assert v.lastLogin == w.lastLogin && v.userId == w.userId && v.createdAt == w.createdAt;
    }
  }

  /** The reply of a successful `create`: the new student and, beside it, the temporary password. */
  datatype Created = Created(student: StudentView, tempPassword: string)

  /** `crypto.randomBytes(8).toString('hex')`. */
  function TempPassword(bytes: seq<byte>): (p: string)
    requires |bytes| == 8
    ensures |p| == 16 && forall i :: 0 <= i < |p| ==> IsHexDigit(p[i])
  {
    Hex(bytes)
  }

  /**
   * The record `create` stores: the given names and email, the temporary password hashed by
   * the password hook, and the number the number hook assigns when `count` students exist.
   */
  function NewRecord(firstName: string, lastName: string, email: string, temp: string,
                     hash: string -> string, year: nat, count: nat, now: int): (s: Student)
    ensures s.firstName == firstName && s.lastName == lastName && s.email == email
    ensures ComparePassword(s, temp, hash)
    ensures s.studentNumber == StudentNumber(year, count)
    ensures s.isActive && s.lastLogin.None? && s.userId.None? && s.createdAt == now
  {
    StudentNumberHook(HashPasswordHook(NewStudent(firstName, lastName, email, temp, None, now), true, hash), year, count)
  }

  /** Some stored student already carries this number. */
  predicate NumberTaken(students: map<Id, Student>, number: string) {
    exists id :: id in students && students[id].studentNumber == number
  }

  /** With the email known to be free, a new record clashes exactly when its number is taken. */
  lemma ClashIsNumberClash(students: map<Id, Student>, s: Student)
    requires !EmailTaken(students, s.email, None)
    ensures StudentClash(students, s, None) <==> NumberTaken(students, s.studentNumber)
  {
  }

  /**
   * `create`: 400 when a name or the email is missing, 400 when the email is taken, 400 (with
   * the same message) when the number the hook assigns is taken; otherwise one student is
   * added and the reply is 201 with the temporary password. The welcome mail is built for
   * every stored student; whether the transport delivers it does not change the reply.
   */
  method Create(db: Db, firstName: string, lastName: string, email: string, bytes: seq<byte>,
                hash: string -> string, year: nat, now: int, cfg: Config)
    returns (reply: Reply<Created>, welcome: Option<Mail>)
    requires db.Valid() && |bytes| == 8
    modifies db
    ensures db.Valid()
    ensures firstName == "" || lastName == "" || email == "" ==> reply == Err(400, FieldsRequired)
    ensures firstName != "" && lastName != "" && email != "" && EmailTaken(old(db.students), email, None) ==>
      reply == Err(400, EmailExists)
    ensures (firstName != "" && lastName != "" && email != "" && !EmailTaken(old(db.students), email, None) &&
      NumberTaken(old(db.students), StudentNumber(year, |old(db.students)|))) ==> reply == Err(400, EmailExists)
    ensures reply.Ok? <==> (firstName != "" && lastName != "" && email != "" &&
      !EmailTaken(old(db.students), email, None) && !NumberTaken(old(db.students), StudentNumber(year, |old(db.students)|)))
    ensures reply.Ok? ==> reply.status == 201 && reply.value.tempPassword == TempPassword(bytes)
    ensures reply.Ok? ==> reply.value.student.id == old(db.nextId) && reply.value.student.id !in old(db.students)
    ensures reply.Ok? ==> db.students == old(db.students)[reply.value.student.id :=
      NewRecord(firstName, lastName, email, TempPassword(bytes), hash, year, |old(db.students)|, now)]
    ensures reply.Ok? ==> reply.value.student == View(reply.value.student.id, db.students[reply.value.student.id])
    ensures reply.Ok? ==> welcome == Some(WelcomeMail(cfg, email, firstName + " " + lastName,
      reply.value.student.studentNumber, reply.value.tempPassword))
    ensures reply.Err? ==> db.students == old(db.students) && welcome.None?
    ensures db.users == old(db.users) && db.courses == old(db.courses) && db.grades == old(db.grades)
  {
    welcome := None;
    if firstName == "" || lastName == "" || email == "" {
      return Err(400, FieldsRequired), welcome;
    }
    var existing := db.FindStudentByEmail(email, None);
    if existing.Some? {
      return Err(400, EmailExists), welcome;
    }
    var temp := TempPassword(bytes);
    var saved, rec := SaveNew(db, NewStudent(firstName, lastName, email, temp, None, now), hash, year);
    ClashIsNumberClash(old(db.students), rec);
    if saved.NotSaved? {
      return (if saved.error == DuplicateKey then Err(400, EmailExists) else Err(500, ServerError)), welcome;
    }
    welcome := Some(WelcomeMail(cfg, email, firstName + " " + lastName, rec.studentNumber, temp));
    return Ok(201, Created(View(saved.id, rec), temp)), welcome;
  }

  /** `new Student(s).save()` for a record that passes the schema: the hooks run, then the indexes. */
  method SaveNew(db: Db, s: Student, hash: string -> string, year: nat) returns (saved: Saved, rec: Student)
    requires db.Valid() && StudentSchemaValid(s) && s.studentNumber == ""
    modifies db
    ensures db.Valid()
    ensures rec == StudentNumberHook(HashPasswordHook(s, true, hash), year, |old(db.students)|)
    ensures saved.NotSaved? <==> StudentClash(old(db.students), rec, None)
    ensures saved.NotSaved? ==> saved.error == DuplicateKey && db.students == old(db.students)
    ensures saved.Saved? ==> saved.id == old(db.nextId) && db.students == old(db.students)[saved.id := rec]
    ensures saved.Saved? ==> saved.id !in old(db.students)
    ensures db.users == old(db.users) && db.courses == old(db.courses) && db.grades == old(db.grades)
  {
    var doc := new StudentDocument.Create(s);
    assert doc.passwordModified && doc.id.None?;
    saved := db.SaveStudent(doc, hash, year);
    rec := doc.Record();
    assert saved.NotSaved? ==> saved == NotSaved(DuplicateKey);
  }

  /**
   * `update`: a non-empty email held by another student gives 400 first; then an empty
   * required field fails the update validators (500), an unknown id gives 404, and
   * otherwise the present fields are written and nothing else changes.
   */
  method Update(db: Db, id: Id, firstName: Option<string>, lastName: Option<string>, email: Option<string>)
    returns (reply: Reply<StudentView>)
    requires db.Valid()
    modifies db
    ensures db.Valid()
    ensures email.Some? && email.value != "" && EmailTaken(old(db.students), email.value, Some(id)) ==>
      reply == Err(400, EmailInUse)
    ensures (!(email.Some? && email.value != "" && EmailTaken(old(db.students), email.value, Some(id))) &&
      PatchEmpties(firstName, lastName, email)) ==> reply == Err(500, ServerError)
    ensures (!(email.Some? && email.value != "" && EmailTaken(old(db.students), email.value, Some(id))) &&
      !PatchEmpties(firstName, lastName, email) && id !in old(db.students)) ==> reply == Err(404, StudentNotFound)
    ensures reply.Ok? <==> (!(email.Some? && EmailTaken(old(db.students), email.value, Some(id))) &&
      !PatchEmpties(firstName, lastName, email) && id in old(db.students))
    ensures reply.Ok? ==> db.students == old(db.students)[id := Patched(old(db.students)[id], firstName, lastName, email)]
    ensures reply.Ok? ==> reply == Ok(200, View(id, db.students[id]))
    ensures reply.Err? ==> db.students == old(db.students)
    ensures db.users == old(db.users) && db.courses == old(db.courses) && db.grades == old(db.grades)
    ensures db.nextId == old(db.nextId)
  {
    if email.Some? && email.value != "" {
      var clash := db.FindStudentByEmail(email.value, Some(id));
      if clash.Some? {
        return Err(400, EmailInUse);
      }
    }
    var r := db.UpdateStudentFields(id, firstName, lastName, email);
    match r {
      case Missing => return Err(404, StudentNotFound);
      case Failed(DuplicateKey) => return Err(400, EmailInUse);
      case Failed(_) => return Err(500, ServerError);
      case Updated => return Ok(200, View(id, db.students[id]));
    }
  }

  /** A student may keep their own email: it never counts as taken by the update's check. */
  lemma OwnEmailNotTaken(students: map<Id, Student>, id: Id)
    requires StudentKeysUnique(students) && id in students
    ensures !EmailTaken(students, students[id].email, Some(id))
  {
  }

  /** `delete`: 404 for an unknown id; otherwise that student is removed and their grades stay. */
  method Delete(db: Db, id: Id) returns (reply: Reply<string>)
    requires db.Valid()
    modifies db
    ensures db.Valid()
    ensures reply == (if id in old(db.students) then Ok(200, StudentDeleted) else Err(404, StudentNotFound))
    ensures db.students == old(db.students) - {id}
    ensures db.users == old(db.users) && db.courses == old(db.courses) && db.grades == old(db.grades)
  {
    var found := db.DeleteStudent(id);
    return if found then Ok(200, StudentDeleted) else Err(404, StudentNotFound);
  }

  /** `getMyProfile`: the signed-in student without the password, or 404. */
  method GetMyProfile(db: Db, sid: Id) returns (reply: Reply<StudentView>)
    ensures sid !in db.students ==> reply == Err(404, ProfileNotFound)
    ensures sid in db.students ==> reply == Ok(200, View(sid, db.students[sid]))
  {
    if sid !in db.students {
      return Err(404, ProfileNotFound);
    }
    return Ok(200, View(sid, db.students[sid]));
  }

  /**
   * `updateMyProfile`: only first and last name can change; an empty one fails the update
   * validators (500) and an unknown id gives 404.
   */
  method UpdateMyProfile(db: Db, sid: Id, firstName: Option<string>, lastName: Option<string>)
    returns (reply: Reply<StudentView>)
    requires db.Valid()
    modifies db
    ensures db.Valid()
    ensures PatchEmpties(firstName, lastName, None) ==> reply == Err(500, ServerError)
    ensures !PatchEmpties(firstName, lastName, None) && sid !in old(db.students) ==> reply == Err(404, ProfileNotFound)
    ensures reply.Ok? <==> !PatchEmpties(firstName, lastName, None) && sid in old(db.students)
    ensures reply.Ok? ==> db.students == old(db.students)[sid := Patched(old(db.students)[sid], firstName, lastName, None)]
    ensures reply.Ok? ==> reply == Ok(200, View(sid, db.students[sid]))
    ensures reply.Ok? ==> db.students[sid].email == old(db.students)[sid].email
    ensures reply.Err? ==> db.students == old(db.students)
    ensures db.users == old(db.users) && db.courses == old(db.courses) && db.grades == old(db.grades)
  {
    var r := db.UpdateStudentFields(sid, firstName, lastName, None);
    match r {
      case Missing => return Err(404, ProfileNotFound);
      case Failed(_) => return Err(500, ServerError);
      case Updated => return Ok(200, View(sid, db.students[sid]));
    }
  }
}
