/**
 * The add-employee form: its validation schema, the course checkboxes, the
 * file input, and the submit handler that uploads the image and shapes the
 * body sent to POST /api/employee. The form values are state that the
 * handlers update; they live in AddEmployeeForm. Email syntax is checked by a
 * library, so `isEmail` is a parameter.
 */
module AddEmployeePage {
  import opened Wrappers
  import opened Sequences
  import EmployeeSchema
  import EmployeeRoute

  /** What the image field holds: nothing, a File of some size, or any other value. */
  datatype ImageValue = NoImage | ImageFile(size: nat) | NotAFile

  datatype FormValues = FormValues(
    name: string,
    email: string,
    mobile: string,
    designation: string,
    gender: string,
    course: seq<string>,
    image: ImageValue)

  /** The schema's fields; a validation issue names one of them. */
  datatype Field = NameField | EmailField | MobileField | DesignationField | GenderField | CourseField | ImageField

  const Designations: seq<string> := ["HR", "Manager", "Sales"]
  const Genders: seq<string> := ["M", "F"]
  const Courses: seq<string> := ["MCA", "BCA", "BSC"]
  const MinMobileLength := 10

  /** `\d` in a JavaScript regular expression: an ASCII digit. */
  predicate IsDigit(c: char)
  {
    '0' <= c <= '9'
  }

  /** The mobile pattern: one or more digits and nothing else, checked character by character. */
  function MatchesDigits(s: string): (b: bool)
    ensures b <==> |s| > 0 && forall k | 0 <= k < |s| :: IsDigit(s[k])
  {
    |s| > 0 && IsDigit(s[0]) && (|s| == 1 || MatchesDigits(s[1..]))
  }

  /** The course rule checks each selected element against the course enum in turn. */
  function EveryCourseKnown(cs: seq<string>): (b: bool)
    ensures b <==> forall k | 0 <= k < |cs| :: cs[k] in Courses
  {
    |cs| == 0 || (cs[0] in Courses && EveryCourseKnown(cs[1..]))
  }

  /** One field's check: no issue when it passes, an issue naming the field otherwise. */
  function Check(ok: bool, f: Field): (r: seq<Field>)
    ensures f in r <==> !ok
    ensures forall g | g != f :: g !in r
  {
    if ok then [] else [f]
  }

  /** The issues of the three text fields, in schema order. */
  function TextIssues(v: FormValues, isEmail: string -> bool): (r: seq<Field>)
    ensures NameField in r <==> |v.name| == 0
    ensures EmailField in r <==> !isEmail(v.email)
    ensures MobileField in r <==>
              !(|v.mobile| >= MinMobileLength && forall k | 0 <= k < |v.mobile| :: IsDigit(v.mobile[k]))
    ensures forall f | f in r :: f == NameField || f == EmailField || f == MobileField
  {
    Check(|v.name| >= 1, NameField)
    + Check(isEmail(v.email), EmailField)
    + Check(MatchesDigits(v.mobile) && |v.mobile| >= MinMobileLength, MobileField)
  }

  /** The issues of the three choice fields, in schema order. */
  function ChoiceIssues(v: FormValues): (r: seq<Field>)
    ensures DesignationField in r <==> v.designation !in Designations
    ensures GenderField in r <==> v.gender !in Genders
    ensures CourseField in r <==> |v.course| == 0 || exists k | 0 <= k < |v.course| :: v.course[k] !in Courses
    ensures forall f | f in r :: f == DesignationField || f == GenderField || f == CourseField
  {
    Check(v.designation in Designations, DesignationField)
    + Check(v.gender in Genders, GenderField)
    + Check(EveryCourseKnown(v.course) && |v.course| > 0, CourseField)
  }

  /** The issues of the fields both forms' schemas share, in schema order. */
  function ShapeIssues(v: FormValues, isEmail: string -> bool): (r: seq<Field>)
    ensures NameField in r <==> |v.name| == 0
    ensures EmailField in r <==> !isEmail(v.email)
    ensures MobileField in r <==>
              !(|v.mobile| >= MinMobileLength && forall k | 0 <= k < |v.mobile| :: IsDigit(v.mobile[k]))
    ensures DesignationField in r <==> v.designation !in Designations
    ensures GenderField in r <==> v.gender !in Genders
    ensures CourseField in r <==> |v.course| == 0 || exists k | 0 <= k < |v.course| :: v.course[k] !in Courses
    ensures ImageField !in r
  {
    TextIssues(v, isEmail) + ChoiceIssues(v)
  }

  /** The image rule: the value must be a File or undefined, and a present
      file must not be empty. */
  predicate ImageAccepted(img: ImageValue)
  {
    var fileOrUndefined := img.ImageFile? || img.NoImage?;
    fileOrUndefined && (img.NoImage? || img.size > 0)
  }

  /** Every issue the schema reports for the form. */
  function Issues(v: FormValues, isEmail: string -> bool): seq<Field>
  {
    ShapeIssues(v, isEmail) + Check(ImageAccepted(v.image), ImageField)
  }

  predicate Accepts(v: FormValues, isEmail: string -> bool)
  {
    Issues(v, isEmail) == []
  }

  /** Field by field, what an accepted form holds. */
  predicate FieldsValid(v: FormValues, isEmail: string -> bool)
  {
    && |v.name| >= 1
    && isEmail(v.email)
    && |v.mobile| >= MinMobileLength
    && (forall k | 0 <= k < |v.mobile| :: IsDigit(v.mobile[k]))
    && v.designation in Designations
    && v.gender in Genders
    && |v.course| > 0
    && (forall k | 0 <= k < |v.course| :: v.course[k] in Courses)
  }

  /** The schema accepts a form exactly when every field is valid and the
      image is absent or a File of positive size. */
  lemma {:induction false} AcceptsExactly(v: FormValues, isEmail: string -> bool)
    ensures Accepts(v, isEmail) <==>
              FieldsValid(v, isEmail) && (v.image.NoImage? || (v.image.ImageFile? && v.image.size > 0))
  {
    var r := Issues(v, isEmail);
    if r != [] {
      assert r[0] in r;
      assert r[0] in ShapeIssues(v, isEmail) || r[0] == ImageField;
    }
  }

  /** The checkbox handler: a checked course is appended, an unchecked one is
      filtered out everywhere it occurs. */
  function ToggleCourse(courses: seq<string>, course: string, checked: bool): (r: seq<string>)
    ensures checked ==> r == courses + [course]
    ensures !checked ==> course !in r
    ensures !checked ==> forall x | x != course :: multiset(r)[x] == multiset(courses)[x]
    ensures !checked ==> IsSubsequence(r, courses)
  {
    if checked then courses + [course]
    else
      FilterSpec(courses, c => c != course);
      Filter(courses, c => c != course)
  }

  /** Checking and then unchecking a course leaves what unchecking alone leaves. */
  lemma {:induction false} CheckThenUncheck(courses: seq<string>, course: string)
    ensures ToggleCourse(ToggleCourse(courses, course, true), course, false) == ToggleCourse(courses, course, false)
  {
    FilterAppend(courses, [course], c => c != course);
    assert Filter([course], c => c != course) == [];
  }

  /** Unchecking a course that is not selected changes nothing. */
  lemma {:induction false} UncheckUnselected(courses: seq<string>, course: string)
    requires course !in courses
    ensures ToggleCourse(courses, course, false) == courses
  {
    FilterKeepsAll(courses, c => c != course);
  }

  /** The JSON body `onSubmit` sends. */
  datatype Payload = Payload(
    name: string,
    email: string,
    mobile: string,
    designation: string,
    gender: string,
    course: string,
    imageId: Option<string>)

  /** Builds the body: only the first selected course is sent. */
  function BuildPayload(v: FormValues, imageId: Option<string>): (p: Payload)
    requires |v.course| > 0
    ensures p.course == v.course[0] && p.imageId == imageId
    ensures p.name == v.name && p.email == v.email && p.mobile == v.mobile
    ensures p.designation == v.designation && p.gender == v.gender
  {
    Payload(v.name, v.email, v.mobile, v.designation, v.gender, v.course[0], imageId)
  }

  /** The body as the POST handler reads it: the course is a text, a null
      image id is a missing value. */
  function RequestBody(p: Payload): EmployeeRoute.PostBody
  {
    EmployeeRoute.PostBody(p.name, p.email, p.mobile, p.designation, p.gender,
                           EmployeeRoute.CourseText(p.course),
                           if p.imageId.Some? then p.imageId.value else "")
  }

  datatype SubmitOutcome = Invalid(issues: seq<Field>) | UploadFailed | Posted(payload: Payload)

  class AddEmployeeForm {
    var values: FormValues

    /** The form starts with no course selected, empty inputs and no file. */
    constructor ()
      ensures values == FormValues("", "", "", "", "", [], NoImage)
    {
      values := FormValues("", "", "", "", "", [], NoImage);
    }

    /** What the registered text inputs, select and radios hold. */
    method Fill(name: string, email: string, mobile: string, designation: string, gender: string)
      modifies this
      ensures values == old(values).(name := name, email := email, mobile := mobile,
                                     designation := designation, gender := gender)
    {
      values := values.(name := name, email := email, mobile := mobile,
                        designation := designation, gender := gender);
    }

    /** A course checkbox's `onChange`. */
    method OnCourseChange(course: string, checked: bool)
      modifies this
      ensures values == old(values).(course := ToggleCourse(old(values.course), course, checked))
    {
      var courses := values.course;
      values := values.(course := ToggleCourse(courses, course, checked));
    }

    /** `handleFileChange`: the first chosen file, given by its size, or undefined. */
    method HandleFileChange(files: seq<nat>)
      modifies this
      ensures values == old(values).(image := if |files| > 0 then ImageFile(files[0]) else NoImage)
    {
      var file := if |files| > 0 then ImageFile(files[0]) else NoImage;
      values := values.(image := file);
    }

    /** `handleSubmit(onSubmit)`: validate, upload a chosen file (`upload` is
        the id the blob store returned, or None when the upload failed) and
        send the body. */
    method Submit(isEmail: string -> bool, upload: Option<string>) returns (outcome: SubmitOutcome)
      ensures !Accepts(values, isEmail) ==> outcome == Invalid(Issues(values, isEmail))
      ensures Accepts(values, isEmail) && values.image.ImageFile? && upload.None? ==> outcome == UploadFailed
      ensures outcome.Posted? ==>
                && Accepts(values, isEmail)
                && outcome.payload.course == values.course[0]
                && (outcome.payload.imageId.None? <==> values.image.NoImage?)
                && (values.image.ImageFile? ==> outcome.payload.imageId == upload)
                && outcome.payload == BuildPayload(values, outcome.payload.imageId)
      ensures Accepts(values, isEmail) && (values.image.NoImage? || upload.Some?) ==> outcome.Posted?
    {
      var issues := Issues(values, isEmail);
      if issues != [] {
        return Invalid(issues);
      }
      AcceptsExactly(values, isEmail);
      var imageId: Option<string> := None;
      if values.image.ImageFile? {
        if upload.None? {
          return UploadFailed;
        }
        imageId := upload;
      }
      outcome := Posted(BuildPayload(values, imageId));
    }
  }

  /** However many courses were ticked, the stored document holds only the first. */
  lemma SubmittedCourseIsFirstSelection(v: FormValues, imageId: Option<string>, id: nat, now: int)
    requires |v.course| > 0
    ensures EmployeeRoute.Draft(id, RequestBody(BuildPayload(v, imageId)), now).course == [v.course[0]]
  {
  }

  /** The form lets the image be left out, but the schema requires an image
      id: a submission without an image is never stored. */
  lemma SubmissionWithoutImageNeverStored(s: seq<EmployeeSchema.Employee>, v: FormValues, id: nat, now: int)
    requires |v.course| > 0
    ensures !EmployeeSchema.SaveAccepts(s, EmployeeRoute.Draft(id, RequestBody(BuildPayload(v, None)), now))
  {
  }
}
