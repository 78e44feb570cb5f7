/**
 * The student form: prefilled from the student being edited, validated
 * into an error map, submitted only when that map is empty, and cleared
 * after a submission only when it created a student.
 */
module StudentForm {
  import opened Wrappers
  import opened JsText
  import opened Validation

  datatype Field = Name | Email

  datatype FormData = FormData(name: string, email: string)

  /** The student being edited, as far as the form reads it (missing fields as `None`). */
  datatype EditingStudent = EditingStudent(name: Option<string>, email: Option<string>)

  const EmptyForm: FormData := FormData("", "")

  /** The prefill effect: the edited student's name and email, '' for missing ones; an empty form otherwise. */
  function Prefill(editing: Option<EditingStudent>): (f: FormData)
    ensures editing.None? ==> f == EmptyForm
    ensures editing.Some? ==> f.name == editing.value.name.GetOr("") && f.email == editing.value.email.GetOr("")
  {
    if editing.Some? then FormData(editing.value.name.GetOr(""), editing.value.email.GetOr("")) else EmptyForm
  }

  function WithField(f: FormData, field: Field, value: string): (r: FormData)
    ensures field == Name ==> r == f.(name := value)
    ensures field == Email ==> r == f.(email := value)
  {
    match field
    case Name => f.(name := value)
    case Email => f.(email := value)
  }

  /** `validateForm`'s error map. */
  function Validate(f: FormData): (errors: map<Field, string>)
    ensures Name in errors <==> JsTrim(f.name) == ""
    ensures Name in errors ==> errors[Name] == "Name is required"
    ensures Email in errors <==> JsTrim(f.email) == "" || !SignupEmailTest(f.email)
    ensures Email in errors ==> errors[Email] == if JsTrim(f.email) == "" then "Email is required" else "Email is invalid"
  {
    var e1 := if JsTrim(f.name) == "" then map[Name := "Name is required"] else map[];
    if JsTrim(f.email) == "" then e1[Email := "Email is required"]
    else if !SignupEmailTest(f.email) then e1[Email := "Email is invalid"]
    else e1
  }

  /** An `x@y.z`-shaped email is never blank. */
  lemma ShapedIsNotBlank(s: string)
    requires EmailShape(s)
    ensures !IsBlank(s)
  {
    var a, d :| 0 <= a < d < |s| && EmailShapeAt(s, a, d);
    assert !IsJsWhitespace(s[a]);
  }

  /** The form is valid exactly when the name is not blank and the email has the `x@y.z` shape. */
  lemma ValidateEmptyIff(f: FormData)
    ensures Validate(f) == map[] <==> !IsBlank(f.name) && EmailShape(f.email)
  {
    TrimEmptyIffBlank(f.name);
    TrimEmptyIffBlank(f.email);
    SignupEmailTestIsShape(f.email);
    if EmailShape(f.email) {
      ShapedIsNotBlank(f.email);
    }
    var e := Validate(f);
    if e != map[] {
      var k :| k in e;
    }
  }

  class StudentFormState {
    var formData: FormData
    var errors: map<Field, string>
    var editing: Option<EditingStudent>

    constructor()
      ensures formData == EmptyForm && errors == map[] && editing.None?
    {
      formData := EmptyForm;
      errors := map[];
      editing := None;
    }

    /** The effect run when the edited student changes. */
    method SetEditing(editingStudent: Option<EditingStudent>)
      modifies this
      ensures editing == editingStudent && formData == Prefill(editingStudent) && errors == old(errors)
    {
      editing := editingStudent;
      formData := Prefill(editingStudent);
    }

    /** `handleChange`: stores the value and clears that field's error. */
    method Change(field: Field, value: string)
      modifies this
      ensures formData == WithField(old(formData), field, value)
      ensures errors == ClearError(old(errors), field)
      ensures editing == old(editing)
    {
      formData := WithField(formData, field, value);
      errors := ClearError(errors, field);
    }

    /**
     * `handleSubmit`: the error map is shown; when it is empty the form's
     * data is handed to `onSubmit` (the result), and a create form is
     * cleared while an edit form keeps its data.
     */
    method Submit() returns (submitted: Option<FormData>)
      modifies this
      ensures errors == Validate(old(formData))
      ensures submitted.Some? <==> errors == map[]
      ensures submitted.Some? ==> submitted.value == old(formData)
      ensures submitted.Some? && editing.None? ==> formData == EmptyForm
      ensures submitted.None? || editing.Some? ==> formData == old(formData)
      ensures editing == old(editing)
    {
      errors := Validate(formData);
      if errors != map[] {
        return None;
      }
      submitted := Some(formData);
      if editing.None? {
        formData := EmptyForm;
      }
    }
  }
}
