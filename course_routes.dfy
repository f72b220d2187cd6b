/**
 * The course handlers: `getAll` (by name), `create`, `update` and `delete`.
 *
 * `create` reads `name` and `code` as strings ("" when absent); `description` and `credits`
 * are None when absent. In `update` every field is None when absent. A falsy credits value
 * is modelled as 0 (the other falsy numbers, NaN and null, are left out).
 */
module CourseRoutes {
  import opened Wrappers
  import opened Text
  import opened Seqs
  import opened Model
  import opened Database
  import opened Http

  const FieldsRequired: string := "Le nom et le code du cours sont requis"
  const CodeExists: string := "Un cours avec ce code existe déjà"
  const CourseNotFound: string := "Cours non trouvé"
  const CourseDeleted: string := "Cours supprimé avec succès"

  /** The course `create` builds: `description || ''` and `credits || 3`. */
  function CourseFromBody(name: string, code: string, description: Option<string>, credits: Option<int>): (c: Course)
    ensures c.name == name && c.code == code
    ensures c.description == description.GetOr("")
    ensures credits.None? || credits == Some(0) ==> c.credits == DefaultCredits
    ensures credits.Some? && credits.value != 0 ==> c.credits == credits.value
  {
    Course(name, code, description.GetOr(""), if credits.None? || credits.value == 0 then DefaultCredits else credits.value)
  }

  /** The defaults of `create` agree with the schema defaults wherever the schema's apply. */
  lemma CreateDefaultsAgreeWithSchema(name: string, code: string)
    ensures CourseFromBody(name, code, None, None) == NewCourse(name, code, None, None)
  {
  }

  /**
   * `create`: 400 without a name or code, 400 when the code is taken; otherwise one course is
   * added and the reply is 201.
   */
  method Create(db: Db, name: string, code: string, description: Option<string>, credits: Option<int>)
    returns (reply: Reply<(Id, Course)>)
    requires db.Valid()
    modifies db
    ensures db.Valid()
    ensures name == "" || code == "" ==> reply == Err(400, FieldsRequired)
    ensures name != "" && code != "" && CodeTaken(old(db.courses), code, None) ==> reply == Err(400, CodeExists)
    ensures reply.Ok? <==> name != "" && code != "" && !CodeTaken(old(db.courses), code, None)
    ensures reply.Ok? ==> reply == Ok(201, (old(db.nextId), CourseFromBody(name, code, description, credits)))
    ensures reply.Ok? ==> old(db.nextId) !in old(db.courses) && db.courses == old(db.courses)[reply.value.0 := reply.value.1]
    ensures reply.Err? ==> db.courses == old(db.courses)
    ensures db.users == old(db.users) && db.students == old(db.students) && db.grades == old(db.grades)
  {
    if name == "" || code == "" {
      return Err(400, FieldsRequired);
    }
    var existing := db.FindCourseByCode(code, None);
    if existing.Some? {
      return Err(400, CodeExists);
    }
    var c := CourseFromBody(name, code, description, credits);
    var saved := db.InsertCourse(c);
    if saved.NotSaved? {
      return Err(500, ServerError);
    }
    return Ok(201, (saved.id, c));
  }

  /** `update`'s `updateData`: name and code only when non-empty, description and credits whenever given. */
  function UpdateData(name: Option<string>, code: Option<string>): (r: (Option<string>, Option<string>))
    ensures r.0 == (if name.Some? && name.value != "" then name else None)
    ensures r.1 == (if code.Some? && code.value != "" then code else None)
    ensures r.0 != Some("") && r.1 != Some("")
  {
    (if name.Some? && name.value != "" then name else None, if code.Some? && code.value != "" then code else None)
  }

  /**
   * `update`: a non-empty code held by another course gives 400, before the id is looked up;
   * then an unknown id gives 404; otherwise the patch is written and nothing else changes.
   * An empty name or code in the body is left out of the patch, so it keeps the stored value.
   */
  method Update(db: Db, id: Id, name: Option<string>, code: Option<string>, description: Option<string>,
                credits: Option<int>) returns (reply: Reply<Course>)
    requires db.Valid()
    modifies db
    ensures db.Valid()
    ensures code.Some? && code.value != "" && CodeTaken(old(db.courses), code.value, Some(id)) ==>
      reply == Err(400, CodeExists)
    ensures (!(code.Some? && code.value != "" && CodeTaken(old(db.courses), code.value, Some(id))) &&
      id !in old(db.courses)) ==> reply == Err(404, CourseNotFound)
    ensures reply.Ok? <==> (!(code.Some? && code.value != "" && CodeTaken(old(db.courses), code.value, Some(id))) &&
      id in old(db.courses))
    ensures reply.Ok? ==> db.courses == old(db.courses)[id := reply.value]
    ensures reply.Ok? ==> reply == Ok(200, PatchedCourse(old(db.courses)[id], UpdateData(name, code).0,
      UpdateData(name, code).1, description, credits))
    ensures reply.Err? ==> db.courses == old(db.courses)
    ensures db.users == old(db.users) && db.students == old(db.students) && db.grades == old(db.grades)
  {
    var patch := UpdateData(name, code);
    if patch.1.Some? {
      var clash := db.FindCourseByCode(patch.1.value, Some(id));
      if clash.Some? {
        return Err(400, CodeExists);
      }
    }
    var r := db.UpdateCourse(id, patch.0, patch.1, description, credits);
    match r {
      case Missing => return Err(404, CourseNotFound);
      case Failed(_) => return Err(500, ServerError);
      case Updated => return Ok(200, db.courses[id]);
    }
  }

  /** A course may keep its own code: it never counts as taken by the update's check. */
  lemma OwnCodeNotTaken(courses: map<Id, Course>, id: Id)
    requires CourseCodesUnique(courses) && id in courses
    ensures !CodeTaken(courses, courses[id].code, Some(id))
  {
  }

  /** `delete`: 404 for an unknown id; otherwise that course is removed and its grades stay. */
  method Delete(db: Db, id: Id) returns (reply: Reply<string>)
    requires db.Valid()
    modifies db
    ensures db.Valid()
    ensures reply == (if id in old(db.courses) then Ok(200, CourseDeleted) else Err(404, CourseNotFound))
    ensures db.courses == old(db.courses) - {id}
    ensures db.users == old(db.users) && db.students == old(db.students) && db.grades == old(db.grades)
  {
    var found := db.DeleteCourse(id);
    return if found then Ok(200, CourseDeleted) else Err(404, CourseNotFound);
  }

  /** The order of `sort({ name: 1 })`. */
  function ByName(): (le: ((Id, Course), (Id, Course)) -> bool)
    ensures forall a, b :: le(a, b) == LexLe(a.1.name, b.1.name)
  {
    (a: (Id, Course), b: (Id, Course)) => LexLe(a.1.name, b.1.name)
  }

  lemma ByNameTotal()
    ensures Total(ByName())
  {
    forall a: (Id, Course), b: (Id, Course)
      ensures ByName()(a, b) || ByName()(b, a)
    {
      LexLeTotal(a.1.name, b.1.name);
    }
  }

  /** `getAll`: every stored course once, by name. */
  method GetAll(db: Db) returns (reply: Reply<seq<(Id, Course)>>)
    ensures reply.Ok? && reply.status == 200
    ensures forall e :: e in reply.value <==> e.0 in db.courses && db.courses[e.0] == e.1
    ensures |reply.value| == |db.courses|
    ensures forall i :: 0 <= i < |reply.value| - 1 ==> LexLe(reply.value[i].1.name, reply.value[i + 1].1.name)
  {
    var all := EntriesOf(db.courses);
    ByNameTotal();
    var list := SortBy(all, ByName());
    assert forall e :: e in list <==> e in multiset(all);
    assert |list| == |multiset(list)| == |multiset(all)| == |all|;
    return Ok(200, list);
  }
}
