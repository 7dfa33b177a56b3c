/**
 * The `/api/employee` handlers: GET lists the collection (or answers with a
 * marker object when it is empty) and POST normalises the course, refuses an
 * email that is already stored and otherwise saves a new document.
 * The collection is the state a `save` changes; it lives in EmployeeStore.
 */
module EmployeeRoute {
  import opened Wrappers
  import opened Text
  import opened EmployeeSchema

  /** The course of a request body: an array, a text, or no value at all. */
  datatype CourseField = CourseArray(items: seq<string>) | CourseText(text: string) | CourseAbsent

  /** A request body. A missing or null text field is the empty string:
      the schema's `required` check refuses both alike. */
  datatype PostBody = PostBody(
    name: string,
    email: string,
    mobile: string,
    designation: string,
    gender: string,
    course: CourseField,
    imageId: string)

  /** The JSON a handler answers with, and its HTTP status. */
  datatype Reply =
    | ListReply(employees: seq<Employee>)
    | MessageReply(message: string)
    | ErrorReply(error: string, status: nat)

  const NoEmployeesFound := "No employees found"
  const RetrieveFailed := "Failed to retrieve employees"
  const UserExists := "User already exists"
  const AddFailed := "Failed to add employee"
  const Added := "Employee added successfully"

  /** The separator the handler joins an array course with. */
  const CourseSeparator := ", "

  /** The course as one text: an array is joined with the separator, a text
      is kept, and a missing course stays missing. With items free of commas,
      splitting the joined text at the separator gives the array back. */
  function CourseString(c: CourseField): (r: Option<string>)
    ensures c.CourseArray? && |c.items| == 0 ==> r == Some("")
    ensures c.CourseArray? && |c.items| > 0 ==>
              r.Some? && |r.value| == TotalLength(c.items) + (|c.items| - 1) * |CourseSeparator|
    ensures c.CourseArray? && |c.items| == 1 ==> r == Some(c.items[0])
    ensures c.CourseArray? && |c.items| > 0 && (forall k | 0 <= k < |c.items| :: ',' !in c.items[k]) ==>
              r.Some? && Split(r.value, CourseSeparator) == c.items
    ensures c.CourseText? ==> r == Some(c.text)
    ensures c.CourseAbsent? ==> r.None?
  {
    match c
    case CourseArray(items) =>
      if |items| > 0 && forall k | 0 <= k < |items| :: ',' !in items[k] then
        SplitJoin(items, CourseSeparator);
        Some(Join(items, CourseSeparator))
      else
        Some(Join(items, CourseSeparator))
    case CourseText(text) => Some(text)
    case CourseAbsent => None
  }

  /** The lookup by email before inserting: the first document with that email. */
  function FindByEmail(s: seq<Employee>, email: string): (r: Option<Employee>)
    ensures r.Some? <==> EmailInUse(s, email)
    ensures r.Some? ==> exists k | 0 <= k < |s| :: s[k] == r.value && r.value.email == email &&
                          forall j | 0 <= j < k :: s[j].email != email
  {
    if |s| == 0 then None
    else if s[0].email == email then Some(s[0])
    else
      var r := FindByEmail(s[1..], email);
      assert forall k | 1 <= k < |s| :: s[k] == s[1..][k - 1];
      r
  }

  /** The document POST builds from a body, with the generated id and the
      clock: whatever shape the course had, it is stored as at most one text. */
  function Draft(id: nat, body: PostBody, now: int): (e: Employee)
    ensures e.id == id && e.email == body.email && e.mobile == body.mobile && e.imageId == body.imageId
    ensures e.name == body.name && e.designation == body.designation && e.gender == body.gender
    ensures body.course.CourseText? ==> e.course == [body.course.text]
    ensures body.course.CourseAbsent? ==> e.course == []
    ensures body.course.CourseArray? ==> |e.course| == 1
    ensures body.course.CourseArray? && |body.course.items| > 0 &&
            (forall k | 0 <= k < |body.course.items| :: ',' !in body.course.items[k]) ==>
              Split(e.course[0], CourseSeparator) == body.course.items
    ensures e.status == Active && e.createdAt == now && e.updatedAt == now
  {
    NewDocument(id, body.name, body.email, body.mobile, body.designation, body.gender,
                CourseString(body.course), body.imageId, now)
  }

  /** The persisted employee collection. */
  class EmployeeStore {
    var records: seq<Employee>
    /** The next id the persistence layer hands out; all stored ids are below it. */
    var nextId: nat

    ghost predicate Valid()
      reads this
    {
      && ValidCollection(records)
      && forall k | 0 <= k < |records| :: records[k].id < nextId
    }

    constructor ()
      ensures Valid() && records == []
    {
      records := [];
      nextId := 0;
    }

    /** GET. `fails` stands for the database refusing the query. */
    method Get(fails: bool) returns (reply: Reply)
      requires Valid()
      ensures fails ==> reply == ErrorReply(RetrieveFailed, 500)
      ensures !fails && |records| > 0 ==> reply == ListReply(records)
      ensures !fails && |records| == 0 ==> reply == MessageReply(NoEmployeesFound)
      ensures reply.ListReply? ==> |reply.employees| > 0 && ValidCollection(reply.employees)
    {
      if fails {
        return ErrorReply(RetrieveFailed, 500);
      }
      var employees := records;
      reply := if |employees| > 0 then ListReply(employees) else MessageReply(NoEmployeesFound);
    }

    /** POST, taken as one atomic step. `now` is the clock; `saveFails` stands
        for a database failure outside the schema's own checks. */
    method Post(body: PostBody, now: int, saveFails: bool) returns (reply: Reply)
      requires Valid()
      modifies this
      ensures Valid()
      ensures EmailInUse(old(records), body.email) ==>
                reply == ErrorReply(UserExists, 200) && records == old(records)
      ensures !EmailInUse(old(records), body.email) ==>
                var doc := Draft(old(nextId), body, now);
                if SaveAccepts(old(records), doc) && !saveFails
                then reply == MessageReply(Added) && records == old(records) + [doc]
                else reply == ErrorReply(AddFailed, 200) && records == old(records)
    {
      var courseString := CourseString(body.course);
      var existing := FindByEmail(records, body.email);
      if existing.Some? {
        return ErrorReply(UserExists, 200);
      }
      var doc := NewDocument(nextId, body.name, body.email, body.mobile, body.designation,
                             body.gender, courseString, body.imageId, now);
      if !SaveAccepts(records, doc) || saveFails {
        return ErrorReply(AddFailed, 200);
      }
      SaveKeepsValid(records, doc);
      records := records + [doc];
      nextId := nextId + 1;
      reply := MessageReply(Added);
    }
  }

  /** A body whose email is new but whose mobile number is already stored is
      not caught by the pre-insert check; the unique index refuses it at save. */
  lemma MobileClashFailsAtSave(s: seq<Employee>, id: nat, body: PostBody, now: int)
    requires !EmailInUse(s, body.email) && MobileInUse(s, body.mobile)
    ensures !SaveAccepts(s, Draft(id, body, now))
  {
  }

  /** A body without a course passes the save checks when its other fields
      are filled in and its email and mobile are new: it is stored with an
      empty course list. */
  lemma AbsentCourseStoredEmpty(s: seq<Employee>, id: nat, body: PostBody, now: int)
    requires body.course.CourseAbsent?
    requires body.name != "" && body.email != "" && body.mobile != ""
    requires body.designation != "" && body.gender != "" && body.imageId != ""
    requires !EmailInUse(s, body.email) && !MobileInUse(s, body.mobile)
    ensures SaveAccepts(s, Draft(id, body, now)) && Draft(id, body, now).course == []
  {
  }
}
