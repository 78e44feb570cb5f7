/**
 * The subject form: prefilled from the subject being edited, validated
 * into an error map, submitted only when that map is empty, and cleared
 * after a submission only when it created a subject.
 */
module SubjectForm {
  import opened Wrappers
  import opened JsText
  import opened Validation

  datatype Field = Name | Description

  datatype FormData = FormData(name: string, description: string)

  /** The subject being edited, as far as the form reads it (missing fields as `None`). */
  datatype EditingSubject = EditingSubject(name: Option<string>, description: Option<string>)

  const EmptyForm: FormData := FormData("", "")

  /** The prefill effect: the edited subject's name and description, '' for missing ones; an empty form otherwise. */
  function Prefill(editing: Option<EditingSubject>): (f: FormData)
    ensures editing.None? ==> f == EmptyForm
    ensures editing.Some? ==> f.name == editing.value.name.GetOr("") && f.description == editing.value.description.GetOr("")
  {
    if editing.Some? then FormData(editing.value.name.GetOr(""), editing.value.description.GetOr("")) else EmptyForm
  }

  function WithField(f: FormData, field: Field, value: string): (r: FormData)
    ensures field == Name ==> r == f.(name := value)
    ensures field == Description ==> r == f.(description := value)
  {
    match field
    case Name => f.(name := value)
    case Description => f.(description := value)
  }

  /** `validateForm`'s error map. */
  function Validate(f: FormData): (errors: map<Field, string>)
    ensures Name in errors <==> JsTrim(f.name) == ""
    ensures Name in errors ==> errors[Name] == "Subject name is required"
    ensures Description in errors <==> JsTrim(f.description) == ""
    ensures Description in errors ==> errors[Description] == "Description is required"
  {
    var e1 := if JsTrim(f.name) == "" then map[Name := "Subject name is required"] else map[];
    if JsTrim(f.description) == "" then e1[Description := "Description is required"] else e1
  }

  /** The form is valid exactly when neither the name nor the description is blank. */
  lemma ValidateEmptyIff(f: FormData)
    ensures Validate(f) == map[] <==> !IsBlank(f.name) && !IsBlank(f.description)
  {
    TrimEmptyIffBlank(f.name);
    TrimEmptyIffBlank(f.description);
    var e := Validate(f);
    if e != map[] {
      var k :| k in e;
    }
  }

  class SubjectFormState {
    var formData: FormData
    var errors: map<Field, string>
    var editing: Option<EditingSubject>

    constructor()
      ensures formData == EmptyForm && errors == map[] && editing.None?
    {
      formData := EmptyForm;
      errors := map[];
      editing := None;
    }

    /** The effect run when the edited subject changes. */
    method SetEditing(editingSubject: Option<EditingSubject>)
      modifies this
      ensures editing == editingSubject && formData == Prefill(editingSubject) && errors == old(errors)
    {
      editing := editingSubject;
      formData := Prefill(editingSubject);
    }

    /** `handleChange`: stores the value and clears that field's error. */
    method Change(field: Field, value: string)
      modifies this
      ensures formData == WithField(old(formData), field, value)
      ensures errors == ClearError(old(errors), field)
      ensures editing == old(editing)
    {
      formData := WithField(formData, field, value);
      errors := ClearError(errors, field);
    }

    /**
     * `handleSubmit`: the error map is shown; when it is empty the form's
     * data is handed to `onSubmit` (the result), and a create form is
     * cleared while an edit form keeps its data.
     */
    method Submit() returns (submitted: Option<FormData>)
      modifies this
      ensures errors == Validate(old(formData))
      ensures submitted.Some? <==> errors == map[]
      ensures submitted.Some? ==> submitted.value == old(formData)
      ensures submitted.Some? && editing.None? ==> formData == EmptyForm
      ensures submitted.None? || editing.Some? ==> formData == old(formData)
      ensures editing == old(editing)
    {
      errors := Validate(formData);
      if errors != map[] {
        return None;
      }
      submitted := Some(formData);
      if editing.None? {
        formData := EmptyForm;
      }
    }
  }
}
