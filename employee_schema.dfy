/**
 * The `NewEmployee` document and its schema: seven required fields, a unique
 * index on email and on mobile, a status enum that defaults to Active, and
 * the timestamps the persistence layer fills in.
 */
module EmployeeSchema {
  import opened Wrappers

  datatype Status = Active | Deactive

  /** One stored document. `id` stands for the generated `_id`; `createdAt`
      and `updatedAt` are timestamps in milliseconds. */
  datatype Employee = Employee(
    id: nat,
    name: string,
    email: string,
    mobile: string,
    designation: string,
    gender: string,
    course: seq<string>,
    imageId: string,
    status: Status,
    createdAt: int,
    updatedAt: int)

  /** The values the status enum admits, in schema order. */
  const StatusEnum: seq<string> := ["Active", "Deactive"]

  function StatusName(s: Status): string
  {
    match s
    case Active => "Active"
    case Deactive => "Deactive"
  }

  /** How the schema turns the status given at creation into the stored one:
      a missing value takes the default, a given one must be in the enum. */
  function CastStatus(given: Option<string>): (r: Option<Status>)
    ensures given.None? ==> r == Some(Active)
    ensures given.Some? ==> (r.Some? <==> given.value in StatusEnum)
    ensures given.Some? && r.Some? ==> StatusName(r.value) == given.value
  {
    match given
    case None => Some(Active)
    case Some(s) =>
      if s == "Active" then Some(Active)
      else if s == "Deactive" then Some(Deactive)
      else None
  }

  /** The document the model constructor builds before it is saved:
      the course text is cast to a one-element list (an absent one leaves the
      list empty), status takes its default and both timestamps are `now`. */
  function NewDocument(id: nat, name: string, email: string, mobile: string, designation: string,
                       gender: string, course: Option<string>, imageId: string, now: int): (e: Employee)
    ensures e.id == id && e.name == name && e.email == email && e.mobile == mobile
    ensures e.designation == designation && e.gender == gender && e.imageId == imageId
    ensures e.status == Active
    ensures course.Some? ==> e.course == [course.value]
    ensures course.None? ==> e.course == []
    ensures e.createdAt == now && e.updatedAt == now
  {
    var courses := if course.Some? then [course.value] else [];
    var status := CastStatus(None).value;
    Employee(id, name, email, mobile, designation, gender, courses, imageId, status, now, now)
  }

  /** The required flags: every String field must be non-empty. The course
      list is required too, but that only asks for a list to be there, and an
      empty list counts, so the course adds no condition. */
  predicate RequiredPresent(e: Employee)
  {
    && e.name != ""
    && e.email != ""
    && e.mobile != ""
    && e.designation != ""
    && e.gender != ""
    && e.imageId != ""
  }

  predicate EmailInUse(s: seq<Employee>, email: string)
  {
    exists k | 0 <= k < |s| :: s[k].email == email
  }

  predicate MobileInUse(s: seq<Employee>, mobile: string)
  {
    exists k | 0 <= k < |s| :: s[k].mobile == mobile
  }

  predicate IdInUse(s: seq<Employee>, id: nat)
  {
    exists k | 0 <= k < |s| :: s[k].id == id
  }

  predicate UniqueEmails(s: seq<Employee>)
  {
    forall i, j | 0 <= i < j < |s| :: s[i].email != s[j].email
  }

  predicate UniqueMobiles(s: seq<Employee>)
  {
    forall i, j | 0 <= i < j < |s| :: s[i].mobile != s[j].mobile
  }

  predicate UniqueIds(s: seq<Employee>)
  {
    forall i, j | 0 <= i < j < |s| :: s[i].id != s[j].id
  }

  /** What the schema and its unique indexes guarantee of the whole collection. */
  predicate ValidCollection(s: seq<Employee>)
  {
    && (forall k | 0 <= k < |s| :: RequiredPresent(s[k]))
    && UniqueEmails(s)
    && UniqueMobiles(s)
    && UniqueIds(s)
  }

  /** `save()` succeeds on the schema's side: validation passes and neither
      unique index already holds the email or the mobile number. */
  predicate SaveAccepts(s: seq<Employee>, e: Employee)
  {
    RequiredPresent(e) && !EmailInUse(s, e.email) && !MobileInUse(s, e.mobile)
  }

  /** Appending a fresh document to a valid collection keeps it valid exactly
      when the save checks pass: the checks are the collection invariant. */
  lemma {:induction false} SaveKeepsValid(s: seq<Employee>, e: Employee)
    requires ValidCollection(s) && !IdInUse(s, e.id)
    ensures ValidCollection(s + [e]) <==> SaveAccepts(s, e)
  {
    var t := s + [e];
    assert t[|s|] == e;
    assert forall k | 0 <= k < |s| :: t[k] == s[k];
    if ValidCollection(t) {
      assert RequiredPresent(t[|s|]);
      forall k | 0 <= k < |s| ensures s[k].email != e.email && s[k].mobile != e.mobile {
        assert t[k].email != t[|s|].email;
        assert t[k].mobile != t[|s|].mobile;
      }
    }
  }
}
