/**
 * The four record kinds the backend stores (User, Student, Course, Grade), their schema
 * rules and defaults, the student-number format, and the two save hooks of a student
 * document (password hashing and number assignment).
 *
 * The password hash is an opaque function `hash`; the random salt is not modelled, so
 * comparing a candidate with the stored hash is `hash(candidate) == password`.
 */
module Model {
  import opened Wrappers
  import opened Text

  /** Record identifiers (MongoDB ObjectIds), drawn from one increasing counter. */
  type Id = nat

  // ---------------------------------------------------------------------------
  // Roles of a User record

  const Etudiant: string := "etudiant"
  const Scolarite: string := "scolarite"
  const Administrateur: string := "administrateur"
  const Visiteur: string := "visiteur"

  /** The values the User schema's `role` enum admits. */
  const UserRoles: seq<string> := [Etudiant, Scolarite, Administrateur, Visiteur]

  // ---------------------------------------------------------------------------
  // Records. A string field the document does not have is "".

  datatype User = User(
    clerkId: string,
    email: string,
    firstName: string,
    lastName: string,
    role: string,
    studentId: Option<Id>,
    updatedAt: int)

  datatype Student = Student(
    firstName: string,
    lastName: string,
    email: string,
    password: string,
    studentNumber: string,
    isActive: bool,
    lastLogin: Option<int>,
    userId: Option<Id>,
    createdAt: int)

  datatype Course = Course(name: string, code: string, description: string, credits: int)

  datatype Grade = Grade(student: Id, course: Id, grade: real, date: int)

  // ---------------------------------------------------------------------------
  // Schema validation (what `save()` checks before anything is written)

  /** `clerkId` and `email` are required, and `role` must be one of the enum values. */
  predicate UserSchemaValid(u: User) {
    u.clerkId != "" && u.email != "" && u.role in UserRoles
  }

  /** First name, last name, email and password are required (an empty string fails). */
  predicate StudentSchemaValid(s: Student) {
    s.firstName != "" && s.lastName != "" && s.email != "" && s.password != ""
  }

  /** Name and code are required. */
  predicate CourseSchemaValid(c: Course) {
    c.name != "" && c.code != ""
  }

  /** The grade value lies in [0, 20]. */
  predicate GradeInRange(g: real) {
    0.0 <= g <= 20.0
  }

  // ---------------------------------------------------------------------------
  // Defaults

  const DefaultRole: string := Visiteur
  const DefaultCredits: int := 3

  /** `new User({...})`: the role defaults to 'visiteur' when none is given. */
  function NewUser(clerkId: string, email: string, firstName: string, lastName: string,
                   role: Option<string>, now: int): (u: User)
    ensures role.None? ==> u.role == Visiteur && u.role in UserRoles
    ensures role.Some? ==> u.role == role.value
    ensures u.clerkId == clerkId && u.email == email && u.studentId.None?
  {
    User(clerkId, email, firstName, lastName, role.GetOr(DefaultRole), None, now)
  }

  /** `new Student({...})`: active, no number yet (the save hook assigns it), never logged in. */
  function NewStudent(firstName: string, lastName: string, email: string, password: string,
                      userId: Option<Id>, now: int): (s: Student)
    ensures s.isActive && s.studentNumber == "" && s.lastLogin.None?
    ensures StudentSchemaValid(s) <==> firstName != "" && lastName != "" && email != "" && password != ""
  {
    Student(firstName, lastName, email, password, "", true, None, userId, now)
  }

  /** `new Course({...})`: credits default to 3 and the description to "". */
  function NewCourse(name: string, code: string, description: Option<string>, credits: Option<int>): (c: Course)
    ensures credits.None? ==> c.credits == 3
    ensures description.None? ==> c.description == ""
    ensures CourseSchemaValid(c) <==> name != "" && code != ""
  {
    Course(name, code, description.GetOr(""), credits.GetOr(DefaultCredits))
  }

  // ---------------------------------------------------------------------------
  // Student numbers: "STU" + year + (count + 1) left-padded with '0' to four digits

  /** The numeric part after the year: `String(count + 1).padStart(4, '0')`. */
  function NumberSuffix(count: nat): (r: string)
    ensures |r| >= 4 && AllDigits(r)
    ensures ParseDecimal(r) == count + 1
    ensures count + 1 >= 1000 ==> r == Decimal(count + 1)
    ensures count + 1 < 1000 ==> r[0] == '0' && |r| == 4
  {
    var d := Decimal(count + 1);
    DecimalLength(count + 1);
    ParseDecimalOfDecimal(count + 1);
    ParseDecimalLeadingZeros(if |d| < 4 then 4 - |d| else 0, d);
    PadStart(d, 4, '0')
  }

  /** How many digits small and large numbers have. */
  lemma {:induction false} DecimalLength(n: nat)
    ensures n < 1000 ==> |Decimal(n)| <= 3
    ensures n >= 1000 ==> |Decimal(n)| >= 4
    decreases n
  {
    if n >= 10 {
      DecimalLength(n / 10);
    }
  }

  /** The number a new student receives when `count` students are stored in year `year`. */
  function StudentNumber(year: nat, count: nat): (r: string)
    ensures |r| >= 3 + |Decimal(year)| + 4
    ensures count + 1 < 1000 ==> |r| == 3 + |Decimal(year)| + 4
    ensures count + 1 >= 1000 ==> |r| == 3 + |Decimal(year)| + |Decimal(count + 1)|
    ensures r[..3] == "STU"
    ensures r[3..3 + |Decimal(year)|] == Decimal(year)
    ensures AllDigits(r[3 + |Decimal(year)|..])
    ensures ParseDecimal(r[3 + |Decimal(year)|..]) == count + 1
  {
    var r := "STU" + Decimal(year) + NumberSuffix(count);
    assert r[3 + |Decimal(year)|..] == NumberSuffix(count);
    r
  }

  /** Within one year, different counts give different numbers. */
  lemma StudentNumberInjective(year: nat, c1: nat, c2: nat)
    requires StudentNumber(year, c1) == StudentNumber(year, c2)
    ensures c1 == c2
  {
    var k := 3 + |Decimal(year)|;
    assert StudentNumber(year, c1)[k..] == StudentNumber(year, c2)[k..];
  }

  /**
   * The count is taken at save time, so after a deletion the next number can be one that a
   * remaining student already holds: with two students of 2024 numbered ...0001 and ...0002,
   * deleting the first leaves one student, and the next student is given ...0002 again.
   */
  lemma StudentNumberReusedAfterDelete()
    ensures StudentNumber(2024, 1) == "STU20240002"
  {
    assert Decimal(2024) == "2024";
    assert Decimal(2) == "2";
    assert NumberSuffix(1) == "0002";
  }

  // ---------------------------------------------------------------------------
  // The two pre-save hooks, as functions of the record before the hook

  /** The password hook: re-hash only a password that was modified since the last save. */
  function HashPasswordHook(s: Student, passwordModified: bool, hash: string -> string): (r: Student)
    ensures passwordModified ==> r.password == hash(s.password)
    ensures !passwordModified ==> r == s
    ensures r.(password := s.password) == s
  {
    if passwordModified then s.(password := hash(s.password)) else s
  }

  /** The number hook: a student without a number gets `StudentNumber(year, count)`; one with a number keeps it. */
  function StudentNumberHook(s: Student, year: nat, count: nat): (r: Student)
    ensures s.studentNumber != "" ==> r == s
    ensures s.studentNumber == "" ==> r.studentNumber == StudentNumber(year, count)
    ensures r.studentNumber != ""
    ensures r.(studentNumber := s.studentNumber) == s
  {
    if s.studentNumber != "" then s else s.(studentNumber := StudentNumber(year, count))
  }

  /** `comparePassword(candidate)`. */
  predicate ComparePassword(s: Student, candidate: string, hash: string -> string)
    ensures forall p :: (forall a, b :: hash(a) == hash(b) ==> a == b) && s.password == hash(p) ==>
      (ComparePassword(s, candidate, hash) <==> candidate == p)
  {
    hash(candidate) == s.password
  }

  /** After setting password `p` and saving, `comparePassword(p)` holds. */
  lemma SetPasswordThenCompare(s: Student, p: string, hash: string -> string)
    ensures ComparePassword(HashPasswordHook(s.(password := p), true, hash), p, hash)
  {
  }

  // ---------------------------------------------------------------------------
  // A student document: the in-memory object the hooks and the handlers assign to

  class StudentDocument {
    var firstName: string
    var lastName: string
    var email: string
    var password: string
    var studentNumber: string
    var isActive: bool
    var lastLogin: Option<int>
    var userId: Option<Id>
    var createdAt: int
    /** The stored record's id, or None for a document not yet inserted. */
    var id: Option<Id>
    /** `isModified('password')`. */
    var passwordModified: bool

    /** The record this document would store. */
    function Record(): (s: Student)
      reads this
    {
      Student(firstName, lastName, email, password, studentNumber, isActive, lastLogin, userId, createdAt)
    }

    /** `new Student({...})`: the fields given are marked modified, so a given password will be hashed. */
    constructor Create(s: Student)
      ensures Record() == s && id.None?
      ensures passwordModified == (s.password != "")
    {
      firstName, lastName, email, password := s.firstName, s.lastName, s.email, s.password;
      studentNumber, isActive, lastLogin, userId, createdAt := s.studentNumber, s.isActive, s.lastLogin, s.userId, s.createdAt;
      id := None;
      passwordModified := s.password != "";
    }

    /** A document loaded from the collection: nothing is modified yet. */
    constructor Load(stored: Id, s: Student)
      ensures Record() == s && id == Some(stored) && !passwordModified
    {
      firstName, lastName, email, password := s.firstName, s.lastName, s.email, s.password;
      studentNumber, isActive, lastLogin, userId, createdAt := s.studentNumber, s.isActive, s.lastLogin, s.userId, s.createdAt;
      id := Some(stored);
      passwordModified := false;
    }

    /** `doc.password = p`. */
    method SetPassword(p: string)
      modifies this
      ensures Record() == old(Record()).(password := p)
      ensures passwordModified && id == old(id)
    {
      password := p;
      passwordModified := true;
    }

    /** `doc.email = e`. */
    method SetEmail(e: string)
      modifies this
      ensures Record() == old(Record()).(email := e)
      ensures passwordModified == old(passwordModified) && id == old(id)
    {
      email := e;
    }

    /** `doc.lastLogin = t`. */
    method SetLastLogin(t: int)
      modifies this
      ensures Record() == old(Record()).(lastLogin := Some(t))
      ensures passwordModified == old(passwordModified) && id == old(id)
    {
      lastLogin := Some(t);
    }

    /** The password pre-save hook, run in place. */
    method RunHashPasswordHook(hash: string -> string)
      modifies this
      ensures Record() == HashPasswordHook(old(Record()), old(passwordModified), hash)
      ensures passwordModified == old(passwordModified) && id == old(id)
    {
      if !passwordModified {
        return;
      }
      password := hash(password);
    }

    /** The student-number pre-save hook, run in place; `count` is the number of stored students. */
    method RunStudentNumberHook(year: nat, count: nat)
      modifies this
      ensures Record() == StudentNumberHook(old(Record()), year, count)
      ensures passwordModified == old(passwordModified) && id == old(id)
    {
      if studentNumber == "" {
        studentNumber := StudentNumber(year, count);
      }
    }

    /** After a successful save the document is stored under `stored` and nothing is pending. */
    method MarkSaved(stored: Id)
      modifies this
      ensures Record() == old(Record())
      ensures id == Some(stored) && !passwordModified
    {
      id := Some(stored);
      passwordModified := false;
    }
  }
}
