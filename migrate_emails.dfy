/**
 * The one-off script that gives every student an email: a student without one takes its
 * linked user's email, or, without a linked user, a temporary address built from its names.
 * A save that fails ends the script with exit code 1; the saves before it stay written.
 */
module MigrateEmails {
  import opened Wrappers
  import opened Text
  import opened Seqs
  import opened Model
  import opened Database

  const TempDomain: string := "@temp-student.com"

  /** `${firstName.toLowerCase()}.${lastName.toLowerCase()}@temp-student.com`. */
  function TempEmail(s: Student): (e: string)
    ensures |e| == |s.firstName| + 1 + |s.lastName| + |TempDomain|
    ensures e[|e| - |TempDomain|..] == TempDomain
    ensures Lower(e) == e
  {
    var e := Lower(s.firstName) + "." + Lower(s.lastName) + TempDomain;
    assert forall i :: 0 <= i < |e| ==> LowerChar(e[i]) == e[i];
    e
  }

  /**
   * The email the script gives a student, if any: none when it has one; the linked user's
   * when that user exists and has one; none when it does not; the temporary address when the
   * student has no linked user.
   */
  function Repair(users: map<Id, User>, s: Student): (e: Option<string>)
    ensures s.email != "" ==> e.None?
    ensures s.email == "" && s.userId.Some? ==>
      e == (if s.userId.value in users && users[s.userId.value].email != "" then Some(users[s.userId.value].email) else None)
    ensures s.email == "" && s.userId.None? ==> e == Some(TempEmail(s))
    ensures e.Some? ==> e.value != ""
  {
    if s.email != "" then None
    else if s.userId.Some? then
      if s.userId.value in users && users[s.userId.value].email != "" then Some(users[s.userId.value].email) else None
    else Some(TempEmail(s))
  }

  /** The stored record after the script handled it: the email set and the save's hooks run. */
  function Migrated(users: map<Id, User>, s: Student, year: nat, count: nat): (r: Student)
    ensures Repair(users, s).None? ==> r == s
    ensures Repair(users, s).Some? ==> r.email == Repair(users, s).value && r.email != ""
    ensures r.(email := s.email, studentNumber := s.studentNumber) == s
  {
    match Repair(users, s)
    case None => s
    case Some(e) => StudentNumberHook(s.(email := e), year, count)
  }

  /** A student with an email is left as it is; a repaired one now has an email. */
  lemma MigratedHasEmail(users: map<Id, User>, s: Student, year: nat, count: nat)
    ensures s.email != "" ==> Migrated(users, s, year, count) == s
    ensures Migrated(users, s, year, count).email == "" <==> Repair(users, s).None? && s.email == ""
  {
  }

  /** The students of `snapshot` that the script repairs, as a filter over ids. */
  function NeedsRepair(users: map<Id, User>, snapshot: map<Id, Student>): (p: Id -> bool)
    ensures forall id :: p(id) <==> id in snapshot && Repair(users, snapshot[id]).Some?
  {
    (id: Id) => id in snapshot && Repair(users, snapshot[id]).Some?
  }

  datatype Outcome = Finished(updated: nat) | Aborted

  /** The process exit code of an outcome. */
  function ExitCode(o: Outcome): (code: int)
    ensures code == 0 <==> o.Finished?
  {
    if o.Finished? then 0 else 1
  }

  /** Counting one more element of a list. */
  lemma CountStep(order: seq<Id>, i: nat, p: Id -> bool)
    requires i < |order|
    ensures Count(order[..i + 1], p) == Count(order[..i], p) + (if p(order[i]) then 1 else 0)
  {
    assert order[..i + 1] == order[..i] + [order[i]];
    FilterAppend(order[..i], [order[i]], p);
  }

  /**
   * `student.save()` of the repaired record goes through: the record with its new email passes
   * the schema and, once the number hook has run, breaks no unique index. A student without
   * a repair is not saved, so nothing can fail.
   */
  predicate RepairSaves(users: map<Id, User>, students: map<Id, Student>, id: Id, year: nat)
    requires id in students
  {
    match Repair(users, students[id])
    case None => true
    case Some(e) =>
      StudentSchemaValid(students[id].(email := e)) &&
      !StudentClash(students, StudentNumberHook(students[id].(email := e), year, |students|), Some(id))
  }

  /**
   * One turn of the loop for the stored student `id`: nothing without a repair; otherwise
   * the email is assigned and the record saved, and `saved` says whether the save succeeded.
   */
  method MigrateOne(db: Db, id: Id, hash: string -> string, year: nat) returns (saved: bool)
    requires db.Valid() && id in db.students
    modifies db
    ensures db.Valid()
    ensures saved ==> db.students == old(db.students)[id := Migrated(db.users, old(db.students)[id], year, |old(db.students)|)]
    ensures !saved ==> db.students == old(db.students) && Repair(db.users, old(db.students)[id]).Some?
    ensures saved <==> RepairSaves(db.users, old(db.students), id, year)
    ensures db.users == old(db.users) && db.courses == old(db.courses) && db.grades == old(db.grades)
  {
    var s := db.students[id];
    var repair := Repair(db.users, s);
    if repair.None? {
      assert db.students == db.students[id := s];
      return true;
    }
    var r, rec := db.ResaveStudent(id, s.(email := repair.value), false, hash, year);
    saved := r.Saved?;
  }

  /** After `i` turns: the first `i` students of `order` are migrated and the others untouched. */
  ghost predicate Progress(students: map<Id, Student>, snapshot: map<Id, Student>, users: map<Id, User>,
                           order: seq<Id>, i: nat, year: nat) {
    students.Keys == snapshot.Keys && i <= |order| &&
    (forall id :: id in snapshot <==> id in order) &&
    (forall j :: 0 <= j < i ==> students[order[j]] == Migrated(users, snapshot[order[j]], year, |snapshot|)) &&
    (forall j :: i <= j < |order| ==> students[order[j]] == snapshot[order[j]])
  }

  lemma ProgressStep(students: map<Id, Student>, snapshot: map<Id, Student>, users: map<Id, User>,
                     order: seq<Id>, i: nat, year: nat)
    requires Progress(students, snapshot, users, order, i, year) && i < |order| && Distinct(order)
    ensures students[order[i]] == snapshot[order[i]]
    ensures Progress(students[order[i] := Migrated(users, snapshot[order[i]], year, |snapshot|)],
                     snapshot, users, order, i + 1, year)
  {
  }

  lemma ProgressStudents(students: map<Id, Student>, snapshot: map<Id, Student>, users: map<Id, User>,
                         order: seq<Id>, i: nat, year: nat)
    requires Progress(students, snapshot, users, order, i, year)
    ensures forall k :: k in snapshot ==>
      students[k] == snapshot[k] || students[k] == Migrated(users, snapshot[k], year, |snapshot|)
    ensures i == |order| ==> forall k :: k in snapshot ==> students[k] == Migrated(users, snapshot[k], year, |snapshot|)
  {
    forall k | k in snapshot
      ensures students[k] == snapshot[k] || students[k] == Migrated(users, snapshot[k], year, |snapshot|)
      ensures i == |order| ==> students[k] == Migrated(users, snapshot[k], year, |snapshot|)
    {
      var j :| 0 <= j < |order| && order[j] == k;
    }
  }

  /**
   * `migrateStudents`: one pass over the students in `order` (what `Student.find` returns).
   * When every save succeeds, every student is replaced by its migrated record and `updated`
   * counts the students that needed a repair; a failed save aborts with the earlier saves kept.
   */
  method MigrateStudents(db: Db, hash: string -> string, year: nat) returns (outcome: Outcome, order: seq<Id>)
    requires db.Valid()
    modifies db
    ensures db.Valid()
    ensures forall id :: id in order <==> id in old(db.students)
    ensures |order| == |old(db.students)| && Distinct(order)
    ensures db.students.Keys == old(db.students).Keys
    ensures outcome.Finished? ==>
      forall id :: id in old(db.students) ==> db.students[id] == Migrated(db.users, old(db.students)[id], year, |old(db.students)|)
    ensures outcome.Finished? ==> outcome.updated == Count(order, NeedsRepair(old(db.users), old(db.students)))
    ensures outcome.Aborted? ==> forall id :: id in old(db.students) ==>
      db.students[id] == old(db.students)[id] || db.students[id] == Migrated(db.users, old(db.students)[id], year, |old(db.students)|)
    ensures outcome.Aborted? ==>
      exists id :: id in old(db.students) && db.students[id] == old(db.students)[id] &&
        Repair(old(db.users), old(db.students)[id]).Some? && !RepairSaves(old(db.users), db.students, id, year)
    ensures (forall id :: id in old(db.students) ==> Repair(old(db.users), old(db.students)[id]).None?) ==> outcome.Finished?
    ensures db.users == old(db.users) && db.courses == old(db.courses) && db.grades == old(db.grades)
  {
    var snapshot := db.students;
    var users := db.users;
    order := KeysOf(db.students);
    ghost var p := NeedsRepair(users, snapshot);
    var updated := 0;
    var i := 0;
    while i < |order|
      invariant db.Valid()
      invariant db.users == users && db.courses == old(db.courses) && db.grades == old(db.grades)
      invariant Progress(db.students, snapshot, users, order, i, year)
      invariant updated == Count(order[..i], p)
    {
      var id := order[i];
      CountStep(order, i, p);
      ProgressStep(db.students, snapshot, users, order, i, year);
      var saved := MigrateOne(db, id, hash, year);
      if !saved {
        outcome := Aborted;
        ProgressStudents(db.students, snapshot, users, order, i, year);
        assert id in snapshot && db.students[id] == snapshot[id] && Repair(users, snapshot[id]).Some? &&
          !RepairSaves(users, db.students, id, year);
        return;
      }
      if Repair(users, snapshot[id]).Some? {
        updated := updated + 1;
      }
      i := i + 1;
    }
    assert order[..i] == order;
    outcome := Finished(updated);
    ProgressStudents(db.students, snapshot, users, order, i, year);
  }
}
