/**
 * The mail handlers: `sendToStudents` (an administrator writes to chosen students),
 * `sendToAdmin` (a student writes to the administration) and `getStudentsList`.
 *
 * The transport is the parameter `deliver`: for each mail it either resolves with a value,
 * of which the handler reads only the `success` field, or rejects with an error message.
 * A student's address is the email of the user its `userId` points to, not the student's
 * own email.
 */
module EmailRoutes {
  import opened Wrappers
  import opened Text
  import opened Seqs
  import opened Model
  import opened Database
  import opened Http
  import opened EmailService

  const NoStudentSelected: string := "Aucun étudiant sélectionné"
  const SubjectAndMessageRequired: string := "Le sujet et le message sont requis"
  const NoStudentFound: string := "Aucun étudiant trouvé"
  const AdminMessageSent: string := "Votre message a été envoyé à l'administration"
  const AdminSendFailed: string := "Erreur lors de l'envoi du message"
  const NoEmail: string := "Pas d'email"

  /** What the transport does with one mail. */
  datatype Delivery = Resolved(success: bool) | Rejected(error: string)

  /** One entry of `details`: no address (`no_email`), the transport's value, or its error. */
  datatype Detail = NoAddress | Sent(success: bool) | Errored(error: string)

  /** `r.success` is truthy. */
  predicate Succeeded(d: Detail) {
    d.Sent? && d.success
  }

  datatype Report = Report(message: string, successCount: nat, totalCount: nat, details: seq<Detail>)

  /** `student.userId?.email`, when it is a non-empty string. */
  function StudentAddress(users: map<Id, User>, s: Student): (a: Option<string>)
    ensures a.Some? <==> s.userId.Some? && s.userId.value in users && users[s.userId.value].email != ""
    ensures a.Some? ==> a.value == users[s.userId.value].email
  {
    if s.userId.Some? && s.userId.value in users && users[s.userId.value].email != ""
    then Some(users[s.userId.value].email) else None
  }

  /** The name the mails and the list show: first name, a space, last name. */
  function FullName(s: Student): (n: string)
    ensures |n| == |s.firstName| + 1 + |s.lastName|
    ensures n[..|s.firstName|] == s.firstName && n[|s.firstName|] == ' ' && n[|s.firstName| + 1..] == s.lastName
  {
    s.firstName + " " + s.lastName
  }

  /** The detail for one student: no mail without an address, otherwise the transport's answer. */
  function DetailFor(users: map<Id, User>, cfg: Config, deliver: Mail -> Delivery, subject: string, message: string,
                     s: Student): (d: Detail)
    ensures d.NoAddress? <==> StudentAddress(users, s).None?
    ensures StudentAddress(users, s).Some? ==>
      var m := AdminToStudentMail(cfg, StudentAddress(users, s).value, FullName(s), subject, message);
      (Succeeded(d) <==> deliver(m) == Resolved(true)) && (d.Errored? <==> deliver(m).Rejected?)
  {
    match StudentAddress(users, s)
    case None => NoAddress
    case Some(address) =>
      match deliver(AdminToStudentMail(cfg, address, FullName(s), subject, message))
      case Resolved(ok) => Sent(ok)
      case Rejected(e) => Errored(e)
  }

  /** The details, one per found student, in the order the students were found. */
  function Details(users: map<Id, User>, cfg: Config, deliver: Mail -> Delivery, subject: string, message: string,
                   found: seq<(Id, Student)>): (ds: seq<Detail>)
    ensures |ds| == |found|
    ensures forall i :: 0 <= i < |found| ==> ds[i] == DetailFor(users, cfg, deliver, subject, message, found[i].1)
  {
    Map(found, (e: (Id, Student)) => DetailFor(users, cfg, deliver, subject, message, e.1))
  }

  /** `${successCount} email(s) envoyé(s) sur ${students.length}`. */
  function CountMessage(successCount: nat, total: nat): (m: string)
    ensures |m| > |Decimal(successCount)| + |Decimal(total)|
    ensures AllDigits(m[..|Decimal(successCount)|]) && ParseDecimal(m[..|Decimal(successCount)|]) == successCount
    ensures AllDigits(m[|m| - |Decimal(total)|..]) && ParseDecimal(m[|m| - |Decimal(total)|..]) == total
  {
    var a, b := Decimal(successCount), Decimal(total);
    var m := a + " email(s) envoyé(s) sur " + b;
    assert m[..|a|] == a;
    assert m[|m| - |b|..] == b;
    ParseDecimalOfDecimal(successCount);
    ParseDecimalOfDecimal(total);
    m
  }

  /** The body of the 200 reply: the successes are counted among the details. */
  function ReportOf(ds: seq<Detail>): (r: Report)
    ensures r.details == ds && r.totalCount == |ds| && r.successCount <= r.totalCount
    ensures r.successCount == Count(ds, Succeeded)
    ensures r.message == CountMessage(r.successCount, r.totalCount)
  {
    Report(CountMessage(Count(ds, Succeeded), |ds|), Count(ds, Succeeded), |ds|, ds)
  }

  /**
   * `sendToStudents`: 400 without students, 400 without a subject or message, 404 when no
   * listed id is stored; otherwise one mail per found student with an address, and a report
   * counting the details whose `success` is truthy. `found` is what `Student.find` returns.
   * The administrator's name is computed but not used by the mail, so it is not modelled.
   */
  method SendToStudents(db: Db, cfg: Config, studentIds: seq<Id>, subject: string, message: string,
                        deliver: Mail -> Delivery) returns (reply: Reply<Report>, found: seq<(Id, Student)>)
    ensures forall e :: e in found <==> e.0 in studentIds && e.0 in db.students && db.students[e.0] == e.1
    ensures forall i, j :: 0 <= i < j < |found| ==> found[i].0 != found[j].0
    ensures studentIds == [] ==> reply == Err(400, NoStudentSelected)
    ensures studentIds != [] && (subject == "" || message == "") ==> reply == Err(400, SubjectAndMessageRequired)
    ensures (studentIds != [] && subject != "" && message != "" &&
      (forall id :: id in studentIds ==> id !in db.students)) ==> reply == Err(404, NoStudentFound)
    ensures reply.Ok? <==> (studentIds != [] && subject != "" && message != "" &&
      exists id :: id in studentIds && id in db.students)
    ensures reply.Ok? ==> reply == Ok(200, ReportOf(Details(db.users, cfg, deliver, subject, message, found)))
  {
    var entries := EntriesOf(db.students);
    found := Filter(entries, (e: (Id, Student)) => e.0 in studentIds);
    forall e: (Id, Student) ensures e in found <==> e in entries && e.0 in studentIds {
      FilterMembership(entries, (e: (Id, Student)) => e.0 in studentIds, e);
    }
    DistinctFilter(entries, (e: (Id, Student)) => e.0 in studentIds);
    forall i, j | 0 <= i < j < |found| ensures found[i].0 != found[j].0 {
      assert found[i] in found && found[j] in found;
    }
    forall id | id in studentIds && id in db.students ensures found != [] {
      assert (id, db.students[id]) in found;
    }
    if studentIds == [] {
      return Err(400, NoStudentSelected), found;
    }
    if subject == "" || message == "" {
      return Err(400, SubjectAndMessageRequired), found;
    }
    if found == [] {
      return Err(404, NoStudentFound), found;
    }
    assert found[0] in found;
    return Ok(200, ReportOf(Details(db.users, cfg, deliver, subject, message, found))), found;
  }

  /** A success needs an address: no more successes than found students with one. */
  lemma {:induction false} SuccessNeedsAddress(users: map<Id, User>, cfg: Config, deliver: Mail -> Delivery,
                                               subject: string, message: string, found: seq<(Id, Student)>)
    ensures Count(Details(users, cfg, deliver, subject, message, found), Succeeded) <=
            Count(found, (e: (Id, Student)) => StudentAddress(users, e.1).Some?)
    decreases |found|
  {
    if found != [] {
      var ds := Details(users, cfg, deliver, subject, message, found);
      assert ds[1..] == Details(users, cfg, deliver, subject, message, found[1..]);
      SuccessNeedsAddress(users, cfg, deliver, subject, message, found[1..]);
    }
  }

  /**
   * A transport whose resolved value never has a truthy `success` (nodemailer resolves with
   * an info object without that field) leaves every report at zero successes.
   */
  lemma {:induction false} NoSuccessFieldCountsZero(users: map<Id, User>, cfg: Config, deliver: Mail -> Delivery,
                                                    subject: string, message: string, found: seq<(Id, Student)>)
    requires forall m :: deliver(m) != Resolved(true)
    ensures ReportOf(Details(users, cfg, deliver, subject, message, found)).successCount == 0
    decreases |found|
  {
    if found != [] {
      var ds := Details(users, cfg, deliver, subject, message, found);
      assert ds[1..] == Details(users, cfg, deliver, subject, message, found[1..]);
      NoSuccessFieldCountsZero(users, cfg, deliver, subject, message, found[1..]);
      assert !Succeeded(ds[0]);
    }
  }

  /**
   * `sendToAdmin`: 400 without a subject or message; otherwise the mail to the configured
   * admin address is handed to the transport, with 200 when it resolves and 500 when it rejects.
   * The second component is the mail handed over, if any.
   */
  function SendToAdmin(cfg: Config, user: User, subject: string, message: string,
                       deliver: Mail -> Delivery): (r: (Reply<string>, Option<Mail>))
    ensures subject == "" || message == "" ==> r == (Err(400, SubjectAndMessageRequired), None)
    ensures subject != "" && message != "" ==>
      r.1 == Some(StudentToAdminMail(cfg, user.email, user.firstName + " " + user.lastName, subject, message))
    ensures r.1.Some? ==> r.1.value.to == cfg.adminEmail && r.1.value.replyTo == Some(user.email)
    ensures r.0.Ok? <==> r.1.Some? && deliver(r.1.value).Resolved?
    ensures r.0.Ok? ==> r.0 == Ok(200, AdminMessageSent)
    ensures r.1.Some? && r.0.Err? ==> r.0 == Err(500, AdminSendFailed)
  {
    if subject == "" || message == "" then (Err(400, SubjectAndMessageRequired), None)
    else
      var m := StudentToAdminMail(cfg, user.email, user.firstName + " " + user.lastName, subject, message);
      (if deliver(m).Resolved? then Ok(200, AdminMessageSent) else Err(500, AdminSendFailed), Some(m))
  }

  /** One row of `getStudentsList`. */
  datatype Listing = Listing(id: Id, firstName: string, lastName: string, email: string, fullName: string)

  function ListingOf(users: map<Id, User>, e: (Id, Student)): (l: Listing)
    ensures l.id == e.0 && l.firstName == e.1.firstName && l.lastName == e.1.lastName
    ensures l.fullName == FullName(e.1)
    ensures StudentAddress(users, e.1).Some? ==> l.email == StudentAddress(users, e.1).value
    ensures StudentAddress(users, e.1).None? ==> l.email == NoEmail
  {
    Listing(e.0, e.1.firstName, e.1.lastName, StudentAddress(users, e.1).GetOr(NoEmail), FullName(e.1))
  }

  /** The order of `sort({ lastName: 1, firstName: 1 })`. */
  function ByLastThenFirst(): (le: ((Id, Student), (Id, Student)) -> bool)
    ensures forall a, b :: (le(a, b) ==
      (if a.1.lastName != b.1.lastName then LexLe(a.1.lastName, b.1.lastName) else LexLe(a.1.firstName, b.1.firstName)))
  {
    (a: (Id, Student), b: (Id, Student)) =>
      if a.1.lastName != b.1.lastName then LexLe(a.1.lastName, b.1.lastName) else LexLe(a.1.firstName, b.1.firstName)
  }

  lemma ByLastThenFirstTotal()
    ensures Total(ByLastThenFirst())
  {
    forall a: (Id, Student), b: (Id, Student)
      ensures ByLastThenFirst()(a, b) || ByLastThenFirst()(b, a)
    {
      LexLeTotal(a.1.lastName, b.1.lastName);
      LexLeTotal(a.1.firstName, b.1.firstName);
    }
  }

  /** The rows for a list of stored entries, in the same order. */
  function Listings(users: map<Id, User>, entries: seq<(Id, Student)>): (rows: seq<Listing>)
    ensures |rows| == |entries|
    ensures forall i :: 0 <= i < |entries| ==> rows[i] == ListingOf(users, entries[i])
  {
    Map(entries, (e: (Id, Student)) => ListingOf(users, e))
  }

  /** Rows of entries in name order are in name order. */
  lemma ListingsOrdered(users: map<Id, User>, sorted: seq<(Id, Student)>)
    requires Sorted(sorted, ByLastThenFirst())
    ensures var rows := Listings(users, sorted);
      forall i :: 0 <= i < |rows| - 1 ==>
        LexLe(rows[i].lastName, rows[i + 1].lastName) &&
        (rows[i].lastName == rows[i + 1].lastName ==> LexLe(rows[i].firstName, rows[i + 1].firstName))
  {
    var rows := Listings(users, sorted);
    forall i | 0 <= i < |rows| - 1
      ensures LexLe(rows[i].lastName, rows[i + 1].lastName) &&
        (rows[i].lastName == rows[i + 1].lastName ==> LexLe(rows[i].firstName, rows[i + 1].firstName))
    {
      assert ByLastThenFirst()(sorted[i], sorted[i + 1]);
      LexLeAntisymmetric(rows[i].lastName, rows[i + 1].lastName);
    }
  }

  /** Rows of exactly the stored entries name every stored student and nothing else. */
  lemma ListingsCover(users: map<Id, User>, students: map<Id, Student>, entries: seq<(Id, Student)>)
    requires forall e :: e in entries <==> e.0 in students && students[e.0] == e.1
    ensures forall id :: id in students ==> ListingOf(users, (id, students[id])) in Listings(users, entries)
    ensures forall l :: l in Listings(users, entries) ==>
      l.id in students && l == ListingOf(users, (l.id, students[l.id]))
  {
    var rows := Listings(users, entries);
    forall id | id in students ensures ListingOf(users, (id, students[id])) in rows {
      var k :| 0 <= k < |entries| && entries[k] == (id, students[id]);
      assert rows[k] == ListingOf(users, (id, students[id]));
    }
    forall l | l in rows ensures l.id in students && l == ListingOf(users, (l.id, students[l.id])) {
      var k :| 0 <= k < |rows| && rows[k] == l;
      assert entries[k] in entries;
    }
  }

  /** `getStudentsList`: every stored student once, by last name and then first name. */
  method GetStudentsList(db: Db) returns (reply: Reply<seq<Listing>>)
    ensures reply.Ok? && reply.status == 200
    ensures |reply.value| == |db.students|
    ensures forall id :: id in db.students ==> ListingOf(db.users, (id, db.students[id])) in reply.value
    ensures forall l :: l in reply.value ==> l.id in db.students && l == ListingOf(db.users, (l.id, db.students[l.id]))
    ensures forall i :: 0 <= i < |reply.value| - 1 ==>
      LexLe(reply.value[i].lastName, reply.value[i + 1].lastName) &&
      (reply.value[i].lastName == reply.value[i + 1].lastName ==> LexLe(reply.value[i].firstName, reply.value[i + 1].firstName))
  {
    var entries := EntriesOf(db.students);
    ByLastThenFirstTotal();
    var sorted := SortBy(entries, ByLastThenFirst());
    assert forall e :: e in sorted <==> e in multiset(entries);
    assert |sorted| == |multiset(sorted)| == |multiset(entries)| == |entries|;
    ListingsCover(db.users, db.students, sorted);
    ListingsOrdered(db.users, sorted);
    return Ok(200, Listings(db.users, sorted));
  }
}
