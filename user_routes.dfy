/**
 * The user handlers: the identity provider's webhook (`clerkWebhook`), `updateUserRole`
 * and `getCurrentUserProfile`.
 *
 * Whether `CLERK_WEBHOOK_SECRET` is set is the parameter `secretConfigured`; the signature
 * check is the parameter `verified`, the event it yields or None when `wh.verify` throws.
 */
module UserRoutes {
  import opened Wrappers
  import opened Model
  import opened Database
  import opened Http

  const InvalidWebhook: string := "Webhook invalide"
  const InvalidRole: string := "Rôle invalide"
  const UserNotFound: string := "Utilisateur non trouvé"

  const UserCreated: string := "user.created"
  const UserUpdated: string := "user.updated"
  const UserDeleted: string := "user.deleted"

  /** The part of an event's `data` the handler reads; absent names are "". */
  datatype EventData = EventData(id: string, emails: seq<string>, firstName: string, lastName: string)

  datatype Event = Event(kind: string, data: EventData)

  /** The user `user.created` saves: the first email address and the role 'etudiant'. */
  function CreatedUser(d: EventData, now: int): (u: User)
    requires d.emails != []
    ensures u.clerkId == d.id && u.email == d.emails[0] && u.role == Etudiant
    ensures u.firstName == d.firstName && u.lastName == d.lastName && u.studentId.None?
  {
    NewUser(d.id, d.emails[0], d.firstName, d.lastName, Some(Etudiant), now)
  }

  /** The student `user.created` then builds: names and the link to the user, nothing else. */
  function CreatedStudent(d: EventData, user: Id, now: int): (s: Student)
    ensures s.email == "" && s.password == "" && s.userId == Some(user)
    ensures !StudentSchemaValid(s)
  {
    NewStudent(d.firstName, d.lastName, "", "", Some(user), now)
  }

  /**
   * `clerkWebhook`: 500 without a secret; 400 when the signature check fails; then
   * - `user.created`: the user is saved; the student built next lacks the email and password
   *   the schema requires, so its save fails and the reply is 500 with the user saved and
   *   not linked to any student;
   * - `user.updated`: the user with that Clerk id (if any) gets the new email, names and
   *   update time, and keeps its role;
   * - `user.deleted`: the user's linked student (if any) and then the user are deleted;
   * - any other event: nothing is written.
   * An event without email addresses makes `created` and `updated` throw (500) before any write.
   */
  method Webhook(db: Db, secretConfigured: bool, verified: Option<Event>, now: int,
                 hash: string -> string, year: nat) returns (reply: Reply<bool>)
    requires db.Valid()
    modifies db
    ensures db.Valid()
    ensures !secretConfigured ==> reply == Err(500, ServerError)
    ensures secretConfigured && verified.None? ==> reply == Err(400, InvalidWebhook)
    ensures !secretConfigured || verified.None? ==> db.users == old(db.users)
    ensures !secretConfigured || verified.None? || verified.value.kind != UserDeleted ==> db.students == old(db.students)
    ensures (secretConfigured && verified.Some? && verified.value.kind !in {UserCreated, UserUpdated, UserDeleted}) ==>
      reply == Ok(200, true) && db.users == old(db.users)
    ensures (secretConfigured && verified.Some? && verified.value.kind in {UserCreated, UserUpdated} &&
      verified.value.data.emails == []) ==> reply == Err(500, ServerError) && db.users == old(db.users)
    ensures (secretConfigured && verified.Some? && verified.value.kind == UserCreated && verified.value.data.emails != []) ==>
      reply == Err(500, ServerError) &&
      (UserSchemaValid(CreatedUser(verified.value.data, now)) && !ClerkIdTaken(old(db.users), verified.value.data.id) ==>
        db.users == old(db.users)[old(db.nextId) := CreatedUser(verified.value.data, now)]) &&
      (!(UserSchemaValid(CreatedUser(verified.value.data, now)) && !ClerkIdTaken(old(db.users), verified.value.data.id)) ==>
        db.users == old(db.users))
    ensures (secretConfigured && verified.Some? && verified.value.kind == UserUpdated && verified.value.data.emails != []) ==>
      reply == Ok(200, true) &&
      (forall id :: id in old(db.users) && old(db.users)[id].clerkId == verified.value.data.id ==>
        db.users == old(db.users)[id := old(db.users)[id].(email := verified.value.data.emails[0],
          firstName := verified.value.data.firstName, lastName := verified.value.data.lastName, updatedAt := now)]) &&
      (!ClerkIdTaken(old(db.users), verified.value.data.id) ==> db.users == old(db.users))
    ensures (secretConfigured && verified.Some? && verified.value.kind == UserDeleted) ==>
      reply == Ok(200, true) &&
      (forall id :: id in old(db.users) && old(db.users)[id].clerkId == verified.value.data.id ==>
        db.users == old(db.users) - {id} &&
        db.students == (if old(db.users)[id].studentId.Some? then old(db.students) - {old(db.users)[id].studentId.value}
                        else old(db.students))) &&
      (!ClerkIdTaken(old(db.users), verified.value.data.id) ==> db.users == old(db.users) && db.students == old(db.students))
    ensures db.courses == old(db.courses) && db.grades == old(db.grades)
  {
    if !secretConfigured {
      return Err(500, ServerError);
    }
    if verified.None? {
      return Err(400, InvalidWebhook);
    }
    var evt := verified.value;
    if evt.kind == UserCreated {
      if evt.data.emails == [] {
        return Err(500, ServerError);
      }
      var u := CreatedUser(evt.data, now);
      var savedUser := db.InsertUser(u);
      if savedUser.NotSaved? {
        return Err(500, ServerError);
      }
      var doc := new StudentDocument.Create(CreatedStudent(evt.data, savedUser.id, now));
      var savedStudent := db.SaveStudent(doc, hash, year);
      if savedStudent.NotSaved? {
        return Err(500, ServerError);
      }
      // The student's save cannot succeed, so the user is never linked.
      assert false;
      return Ok(200, true);
    }
    if evt.kind == UserUpdated {
      if evt.data.emails == [] {
        return Err(500, ServerError);
      }
      var found := db.FindUserByClerkId(evt.data.id);
      if found.Some? {
        var u := db.users[found.value];
        db.ReplaceUser(found.value, u.(email := evt.data.emails[0], firstName := evt.data.firstName,
          lastName := evt.data.lastName, updatedAt := now));
      }
    }
    if evt.kind == UserDeleted {
      var found := db.FindUserByClerkId(evt.data.id);
      if found.Some? {
        if db.users[found.value].studentId.Some? {
          var _ := db.DeleteStudent(db.users[found.value].studentId.value);
        }
        db.DeleteUser(found.value);
      }
    }
    return Ok(200, true);
  }

  /** The roles `updateUserRole` accepts. */
  const AssignableRoles: seq<string> := ["etudiant1", "etudiant2", "etudiant3", Administrateur]

  /** The accepted roles and the schema's roles disagree: three accepted roles are not schema roles, and two schema roles cannot be assigned. */
  lemma AssignableRolesDifferFromSchema()
    ensures "etudiant1" in AssignableRoles && "etudiant1" !in UserRoles
    ensures Scolarite in UserRoles && Scolarite !in AssignableRoles
    ensures Etudiant in UserRoles && Etudiant !in AssignableRoles
    ensures forall r :: r in AssignableRoles && r in UserRoles ==> r == Administrateur
  {
    assert AssignableRoles[0] == "etudiant1";
    assert UserRoles[1] == Scolarite && UserRoles[0] == Etudiant;
  }

  /**
   * `updateUserRole`: 400 for a role outside the accepted list, then 404 for an unknown user;
   * otherwise the role and update time are written without running validators.
   */
  method UpdateUserRole(db: Db, userId: Option<Id>, role: string, now: int) returns (reply: Reply<User>)
    requires db.Valid()
    modifies db
    ensures db.Valid()
    ensures role !in AssignableRoles ==> reply == Err(400, InvalidRole) && db.users == old(db.users)
    ensures role in AssignableRoles && (userId.None? || userId.value !in old(db.users)) ==>
      reply == Err(404, UserNotFound) && db.users == old(db.users)
    ensures reply.Ok? <==> role in AssignableRoles && userId.Some? && userId.value in old(db.users)
    ensures reply.Ok? ==> reply == Ok(200, old(db.users)[userId.value].(role := role, updatedAt := now))
    ensures reply.Ok? ==> db.users == old(db.users)[userId.value := reply.value]
    ensures db.students == old(db.students) && db.courses == old(db.courses) && db.grades == old(db.grades)
  {
    if role !in AssignableRoles {
      return Err(400, InvalidRole);
    }
    if userId.None? || userId.value !in db.users {
      return Err(404, UserNotFound);
    }
    var u := db.users[userId.value].(role := role, updatedAt := now);
    db.ReplaceUser(userId.value, u);
    return Ok(200, u);
  }

  /** A user with its `studentId` link resolved (None when unset or when the student is gone). */
  datatype Profile = Profile(user: User, student: Option<Student>)

  /** `getCurrentUserProfile`: 404 without `req.user`; otherwise the user with its student. */
  method GetCurrentUserProfile(db: Db, user: Option<Id>) returns (reply: Reply<Option<Profile>>)
    ensures user.None? ==> reply == Err(404, UserNotFound)
    ensures user.Some? && user.value !in db.users ==> reply == Ok(200, None)
    ensures user.Some? && user.value in db.users ==>
      (reply.Ok? && reply.value.Some? && reply.value.value.user == db.users[user.value])
    ensures (user.Some? && user.value in db.users && reply.value.value.student.Some?) ==>
      db.users[user.value].studentId.Some? && db.users[user.value].studentId.value in db.students &&
      reply.value.value.student.value == db.students[db.users[user.value].studentId.value]
    ensures (user.Some? && user.value in db.users && db.users[user.value].studentId.Some? &&
      db.users[user.value].studentId.value in db.students) ==>
      reply == Ok(200, Some(Profile(db.users[user.value], Some(db.students[db.users[user.value].studentId.value]))))
  {
    if user.None? {
      return Err(404, UserNotFound);
    }
    if user.value !in db.users {
      return Ok(200, None);
    }
    var u := db.users[user.value];
    var s: Option<Student> := if u.studentId.Some? && u.studentId.value in db.students
      then Some(db.students[u.studentId.value]) else None;
    return Ok(200, Some(Profile(u, s)));
  }
}
