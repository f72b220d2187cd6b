/**
 * The student sign-in handlers: `/student/login`, `/student/verify` and
 * `/student/change-password`.
 *
 * The token library is two parameters: `sign` turns claims into a token and `decode` gives
 * the claims of a token that verifies (None when `jwt.verify` throws, for a bad signature,
 * an expired token or anything else). The password hash, the clock and the year are
 * parameters as elsewhere. The `Authorization` header is None when the request has none.
 */
module AuthRoutes {
  import opened Wrappers
  import opened Text
  import opened Model
  import opened Database
  import opened Http
  import opened StudentRoutes

  const CredentialsRequired: string := "Email et mot de passe requis"
  const BadCredentials: string := "Email ou mot de passe incorrect"
  const AccountDisabled: string := "Compte désactivé"
  const TokenMissing: string := "Token manquant"
  const TokenInvalid: string := "Token invalide"
  const NotAuthenticated: string := "Non authentifié"
  const StudentNotFound: string := "Étudiant non trouvé"
  const PasswordsRequired: string := "Mots de passe requis"
  const WrongCurrentPassword: string := "Mot de passe actuel incorrect"
  const PasswordChanged: string := "Mot de passe modifié avec succès"

  /** The claims of a student token; every token is signed with a seven-day expiry. */
  datatype Claims = Claims(studentId: Id, email: string, role: string, expiresIn: string)

  /** The student part of the login reply: exactly these seven fields. */
  datatype LoginStudent = LoginStudent(
    id: Id,
    firstName: string,
    lastName: string,
    email: string,
    studentNumber: string,
    createdAt: int,
    lastLogin: Option<int>)

  datatype LoginReply = LoginReply(token: string, student: LoginStudent)

  /** The claims `login` signs for a student. */
  function LoginClaims(id: Id, s: Student): (c: Claims)
    ensures c.studentId == id && c.email == s.email && c.role == Etudiant && c.expiresIn == "7d"
  {
    Claims(id, s.email, Etudiant, "7d")
  }

  function Summary(id: Id, s: Student): (v: LoginStudent)
    ensures v.id == id && v.email == s.email && v.studentNumber == s.studentNumber && v.lastLogin == s.lastLogin
    ensures v.firstName == s.firstName && v.lastName == s.lastName && v.createdAt == s.createdAt
  {
    LoginStudent(id, s.firstName, s.lastName, s.email, s.studentNumber, s.createdAt, s.lastLogin)
  }

  /** The student stored with this email, if any (the email index makes it unique). */
  predicate HasEmail(students: map<Id, Student>, id: Id, email: string) {
    id in students && students[id].email == email
  }

  /**
   * `login`: 400 without an email or password; 401 with one message for an unknown email and
   * for a wrong password, and 401 'Compte désactivé' for an inactive account whatever the
   * password; otherwise `lastLogin` is set and saved, and the reply carries a signed token.
   */
  method Login(db: Db, email: string, password: string, now: int, hash: string -> string,
               sign: Claims -> string, year: nat) returns (reply: Reply<LoginReply>)
    requires db.Valid()
    modifies db
    ensures db.Valid()
    ensures email == "" || password == "" ==> reply == Err(400, CredentialsRequired)
    ensures email != "" && password != "" && !EmailTaken(old(db.students), email, None) ==>
      reply == Err(401, BadCredentials)
    ensures (email != "" && password != "" && EmailTaken(old(db.students), email, None)) ==>
      forall id :: HasEmail(old(db.students), id, email) ==>
        (!old(db.students)[id].isActive ==> reply == Err(401, AccountDisabled)) &&
        (old(db.students)[id].isActive && !ComparePassword(old(db.students)[id], password, hash) ==>
          reply == Err(401, BadCredentials))
    ensures reply.Ok? ==> reply.status == 200 && exists id :: (HasEmail(old(db.students), id, email) &&
      old(db.students)[id].isActive && ComparePassword(old(db.students)[id], password, hash) &&
      db.students == old(db.students)[id :=
        StudentNumberHook(old(db.students)[id].(lastLogin := Some(now)), year, |old(db.students)|)] &&
      reply.value == LoginReply(sign(LoginClaims(id, db.students[id])), Summary(id, db.students[id])))
    ensures email != "" && password != "" ==> forall id :: (HasEmail(old(db.students), id, email) &&
      old(db.students)[id].isActive && ComparePassword(old(db.students)[id], password, hash)) ==>
        (reply.Ok? || reply == Err(500, ServerError)) &&
        (StudentSchemaValid(old(db.students)[id]) && old(db.students)[id].studentNumber != "" ==>
          reply.Ok? && reply.value.student.id == id)
    ensures reply.Ok? ==> reply.value.student.lastLogin == Some(now)
    ensures reply.Err? && reply.status != 500 ==> db.students == old(db.students)
    ensures db.users == old(db.users) && db.courses == old(db.courses) && db.grades == old(db.grades)
  {
    if email == "" || password == "" {
      return Err(400, CredentialsRequired);
    }
    var found := db.FindStudentByEmail(email, None);
    if found.None? {
      return Err(401, BadCredentials);
    }
    var id := found.value;
    var s := db.students[id];
    if !s.isActive {
      return Err(401, AccountDisabled);
    }
    if !ComparePassword(s, password, hash) {
      return Err(401, BadCredentials);
    }
    var saved, rec := db.ResaveStudent(id, s.(lastLogin := Some(now)), false, hash, year);
    if StudentSchemaValid(s) && s.studentNumber != "" {
      SameKeysNoClash(old(db.students), id, rec);
    }
    if saved.NotSaved? {
      return Err(500, ServerError);
    }
    return Ok(200, LoginReply(sign(LoginClaims(id, rec)), Summary(id, rec)));
  }

  /** `req.headers.authorization?.replace('Bearer ', '')`: None when there is no header. */
  function BearerToken(header: Option<string>): (token: Option<string>)
    ensures header.None? ==> token.None?
    ensures header.Some? && !Contains(header.value, "Bearer ") ==> token == header
    ensures header.Some? && Contains(header.value, "Bearer ") ==> token == Some(ReplaceFirst(header.value, "Bearer ", ""))
    ensures header.Some? && StartsWith(header.value, "Bearer ") ==> token == Some(header.value[7..])
  {
    if header.None? then None
    else
      var r := ReplaceFirst(header.value, "Bearer ", "");
      assert StartsWith(header.value, "Bearer ") ==> r == "" + header.value[|"Bearer "|..] == header.value[7..];
      Some(r)
  }

  /** The token is present and non-empty (`!token` is false). */
  predicate HasToken(header: Option<string>) {
    BearerToken(header).Some? && BearerToken(header).value != ""
  }

  /**
   * `verify`: 401 'Token manquant' without a token; 401 'Token invalide' when the token does
   * not decode or names no active student; otherwise the student without the password.
   */
  method Verify(db: Db, header: Option<string>, decode: string -> Option<Claims>) returns (reply: Reply<StudentView>)
    ensures !HasToken(header) ==> reply == Err(401, TokenMissing)
    ensures reply.Ok? <==> (HasToken(header) && decode(BearerToken(header).value).Some? &&
      decode(BearerToken(header).value).value.studentId in db.students &&
      db.students[decode(BearerToken(header).value).value.studentId].isActive)
    ensures reply.Ok? ==> reply == Ok(200, View(decode(BearerToken(header).value).value.studentId,
      db.students[decode(BearerToken(header).value).value.studentId]))
    ensures HasToken(header) && reply.Err? ==> reply == Err(401, TokenInvalid)
  {
    var token := BearerToken(header);
    if token.None? || token.value == "" {
      return Err(401, TokenMissing);
    }
    var decoded := decode(token.value);
    if decoded.None? {
      return Err(401, TokenInvalid);
    }
    var sid := decoded.value.studentId;
    if sid !in db.students || !db.students[sid].isActive {
      return Err(401, TokenInvalid);
    }
    return Ok(200, View(sid, db.students[sid]));
  }

  /**
   * A stored student whose required names, email and number are set: saving it again with a
   * new password passes the schema and keeps its number.
   */
  predicate Resavable(s: Student) {
    s.firstName != "" && s.lastName != "" && s.email != "" && s.studentNumber != ""
  }

  /**
   * `change-password`: 401 without a token; a token that does not decode throws into the
   * generic handler (500, not 401); 404 for an unknown student; 400 without both passwords;
   * 401 when the current password does not match; otherwise the new password is assigned and
   * saved, so the hook stores its hash. Whether the account is active is not checked.
   */
  method ChangePassword(db: Db, header: Option<string>, decode: string -> Option<Claims>,
                        currentPassword: string, newPassword: string, hash: string -> string, year: nat)
    returns (reply: Reply<string>)
    requires db.Valid()
    modifies db
    ensures db.Valid()
    ensures !HasToken(header) ==> reply == Err(401, NotAuthenticated)
    ensures HasToken(header) && decode(BearerToken(header).value).None? ==> reply == Err(500, ServerError)
    ensures (HasToken(header) && decode(BearerToken(header).value).Some? &&
      decode(BearerToken(header).value).value.studentId !in old(db.students)) ==> reply == Err(404, StudentNotFound)
    ensures (HasToken(header) && decode(BearerToken(header).value).Some? &&
      decode(BearerToken(header).value).value.studentId in old(db.students) &&
      (currentPassword == "" || newPassword == "")) ==> reply == Err(400, PasswordsRequired)
    ensures (HasToken(header) && decode(BearerToken(header).value).Some? &&
      decode(BearerToken(header).value).value.studentId in old(db.students) &&
      currentPassword != "" && newPassword != "" &&
      !ComparePassword(old(db.students)[decode(BearerToken(header).value).value.studentId], currentPassword, hash)) ==>
      reply == Err(401, WrongCurrentPassword)
    ensures reply.Ok? ==> (reply == Ok(200, PasswordChanged) && currentPassword != "" && newPassword != "" &&
      HasToken(header) && decode(BearerToken(header).value).Some?)
    ensures reply.Ok? ==> var sid := decode(BearerToken(header).value).value.studentId;
      sid in old(db.students) && ComparePassword(old(db.students)[sid], currentPassword, hash) &&
      db.students == old(db.students)[sid := StudentNumberHook(
        old(db.students)[sid].(password := hash(newPassword)), year, |old(db.students)|)] &&
      ComparePassword(db.students[sid], newPassword, hash)
    ensures (HasToken(header) && decode(BearerToken(header).value).Some? &&
      decode(BearerToken(header).value).value.studentId in old(db.students) &&
      currentPassword != "" && newPassword != "" &&
      ComparePassword(old(db.students)[decode(BearerToken(header).value).value.studentId], currentPassword, hash)) ==>
      (reply.Ok? || reply == Err(500, ServerError)) &&
      (Resavable(old(db.students)[decode(BearerToken(header).value).value.studentId]) ==> reply.Ok?)
    ensures reply.Err? ==> db.students == old(db.students)
    ensures db.users == old(db.users) && db.courses == old(db.courses) && db.grades == old(db.grades)
  {
    var token := BearerToken(header);
    if token.None? || token.value == "" {
      return Err(401, NotAuthenticated);
    }
    var decoded := decode(token.value);
    if decoded.None? {
      return Err(500, ServerError);
    }
    var sid := decoded.value.studentId;
    if sid !in db.students {
      return Err(404, StudentNotFound);
    }
    if currentPassword == "" || newPassword == "" {
      return Err(400, PasswordsRequired);
    }
    var s := db.students[sid];
    if !ComparePassword(s, currentPassword, hash) {
      return Err(401, WrongCurrentPassword);
    }
    var saved, rec := db.ResaveStudent(sid, s.(password := newPassword), true, hash, year);
    if Resavable(s) {
      SameKeysNoClash(old(db.students), sid, rec);
    }
    if saved.NotSaved? {
      return Err(500, ServerError);
    }
    return Ok(200, PasswordChanged);
  }

  /**
   * A successful password change followed by a login with the stored email and the new
   * password: an active student with an email is let in (unless the save of the login fails), and always
   * when the record is complete and the new password hashes to a non-empty string.
   */
  method ChangeThenLogin(db: Db, header: Option<string>, decode: string -> Option<Claims>,
                         currentPassword: string, newPassword: string, hash: string -> string, year: nat,
                         now: int, sign: Claims -> string)
    returns (changed: Reply<string>, login: Option<Reply<LoginReply>>)
    requires db.Valid()
    modifies db
    ensures db.Valid()
    ensures login.Some? <==> changed.Ok?
    ensures changed.Ok? ==> HasToken(header) && decode(BearerToken(header).value).Some?
    ensures changed.Ok? ==> var sid := decode(BearerToken(header).value).value.studentId;
      sid in old(db.students) &&
      (old(db.students)[sid].isActive && old(db.students)[sid].email != "" ==>
        login.value.Ok? || login.value == Err(500, ServerError)) &&
      (old(db.students)[sid].isActive && Resavable(old(db.students)[sid]) && hash(newPassword) != "" ==>
        login.value.Ok? && login.value.value.student.id == sid)
  {
    changed := ChangePassword(db, header, decode, currentPassword, newPassword, hash, year);
    if changed.Err? {
      return changed, None;
    }
    var token := BearerToken(header).value;
    var id := decode(token).value.studentId;
    var reply := Login(db, db.students[id].email, newPassword, now, hash, sign, year);
    login := Some(reply);
  }
}
