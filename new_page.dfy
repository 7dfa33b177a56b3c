/**
 * The second form page. Its schema repeats the add-employee rules for every
 * field but the image, which is written as an optional custom check; its
 * course checkboxes use the same toggle, AddEmployeePage.ToggleCourse.
 */
module NewPage {
  import AddEmployeePage

  /** The image rule of this page: absent, or a File that is not empty. */
  predicate ImageAccepted(img: AddEmployeePage.ImageValue)
  {
    img.NoImage? || (img.ImageFile? && img.size > 0)
  }

  function Issues(v: AddEmployeePage.FormValues, isEmail: string -> bool): seq<AddEmployeePage.Field>
  {
    AddEmployeePage.ShapeIssues(v, isEmail) + AddEmployeePage.Check(ImageAccepted(v.image), AddEmployeePage.ImageField)
  }

  predicate Accepts(v: AddEmployeePage.FormValues, isEmail: string -> bool)
  {
    Issues(v, isEmail) == []
  }

  /** Both image rules admit the same values, so both schemas accept the same forms. */
  lemma {:induction false} SameRulesAsAddEmployee(v: AddEmployeePage.FormValues, isEmail: string -> bool)
    ensures ImageAccepted(v.image) <==> AddEmployeePage.ImageAccepted(v.image)
    ensures Accepts(v, isEmail) <==> AddEmployeePage.Accepts(v, isEmail)
    ensures Accepts(v, isEmail) <==>
              AddEmployeePage.FieldsValid(v, isEmail) && (v.image.NoImage? || (v.image.ImageFile? && v.image.size > 0))
  {
    AddEmployeePage.AcceptsExactly(v, isEmail);
    var r := Issues(v, isEmail);
    if r != [] {
      assert r[0] in r;
    }
  }

  /** The image input is registered directly, so the form hands the schema
      the input's file list, which is never a File: the custom image check
      fails and the schema refuses every submission of this page. */
  lemma FileListNeverAccepted(v: AddEmployeePage.FormValues, isEmail: string -> bool)
    ensures !Accepts(v.(image := AddEmployeePage.NotAFile), isEmail)
  {
    var w := v.(image := AddEmployeePage.NotAFile);
    assert AddEmployeePage.ImageField in Issues(w, isEmail);
  }
}
