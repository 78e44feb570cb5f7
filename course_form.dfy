/**
 * The course form: difficulty defaults to MEDIUM, a new course takes its
 * instructor id from the stored user, the form is submitted only when its
 * error map is empty, and a create form then resets. An instructor id is
 * `None` when unset.
 */
module CourseForm {
  import opened Wrappers
  import opened JsText
  import opened Validation

  datatype Field = Title | DifficultyLevel | InstructorId

  datatype FormData = FormData(title: string, difficultyLevel: string, instructorId: Option<int>)

  /** The course being edited, as far as the form reads it (missing fields as `None`). */
  datatype EditingCourse = EditingCourse(title: Option<string>, difficultyLevel: Option<string>, instructorId: Option<int>)

  /** A new form: empty title, MEDIUM, and the stored user's id (none when no user is stored). */
  function NewForm(storedUserId: Option<int>): (f: FormData)
    ensures f.title == "" && f.difficultyLevel == "MEDIUM" && f.instructorId == storedUserId
  {
    FormData("", "MEDIUM", storedUserId)
  }

  /**
   * The prefill effect: an edited course's fields, with '' for a missing
   * title and MEDIUM for a missing or empty difficulty; a new form otherwise.
   */
  function Prefill(editing: Option<EditingCourse>, storedUserId: Option<int>): (f: FormData)
    ensures editing.None? ==> f == NewForm(storedUserId)
    ensures editing.Some? ==>
              && f.title == editing.value.title.GetOr("")
              && f.instructorId == editing.value.instructorId
              && f.difficultyLevel == (if editing.value.difficultyLevel.GetOr("") == "" then "MEDIUM"
                                       else editing.value.difficultyLevel.value)
    ensures f.difficultyLevel != ""
  {
    if editing.Some? then
      var difficulty := editing.value.difficultyLevel.GetOr("");
      FormData(editing.value.title.GetOr(""), if difficulty == "" then "MEDIUM" else difficulty, editing.value.instructorId)
    else NewForm(storedUserId)
  }

  /** `validateForm`'s error map. */
  function Validate(f: FormData): (errors: map<Field, string>)
    ensures Title in errors <==> JsTrim(f.title) == ""
    ensures Title in errors ==> errors[Title] == "Course title is required"
    ensures InstructorId in errors <==> f.instructorId.None?
    ensures InstructorId in errors ==> errors[InstructorId] == "Instructor ID is required"
    ensures DifficultyLevel !in errors
  {
    var e1 := if JsTrim(f.title) == "" then map[Title := "Course title is required"] else map[];
    if f.instructorId.None? then e1[InstructorId := "Instructor ID is required"] else e1
  }

  /** The form is valid exactly when the title is not blank and an instructor id is set. */
  lemma ValidateEmptyIff(f: FormData)
    ensures Validate(f) == map[] <==> !IsBlank(f.title) && f.instructorId.Some?
  {
    TrimEmptyIffBlank(f.title);
    var e := Validate(f);
    if e != map[] {
      var k :| k in e;
    }
  }

  class CourseFormState {
    var formData: FormData
    var errors: map<Field, string>
    var editing: Option<EditingCourse>

    constructor(storedUserId: Option<int>)
      ensures formData == NewForm(storedUserId) && errors == map[] && editing.None?
    {
      formData := NewForm(storedUserId);
      errors := map[];
      editing := None;
    }

    /** The effect run when the edited course changes; `storedUserId` is the stored user's id. */
    method SetEditing(editingCourse: Option<EditingCourse>, storedUserId: Option<int>)
      modifies this
      ensures editing == editingCourse && formData == Prefill(editingCourse, storedUserId) && errors == old(errors)
    {
      editing := editingCourse;
      formData := Prefill(editingCourse, storedUserId);
    }

    /** `handleChange` on the title or the difficulty select. */
    method ChangeText(field: Field, value: string)
      requires field != InstructorId
      modifies this
      ensures formData == if field == Title then old(formData).(title := value) else old(formData).(difficultyLevel := value)
      ensures errors == ClearError(old(errors), field)
      ensures editing == old(editing)
    {
      formData := if field == Title then formData.(title := value) else formData.(difficultyLevel := value);
      errors := ClearError(errors, field);
    }

    /**
     * `handleSubmit`: the error map is shown; when it is empty the form's
     * data is handed to `onSubmit` (the result), and a create form resets
     * to a new form with the stored user's id read again.
     */
    method Submit(storedUserId: Option<int>) returns (submitted: Option<FormData>)
      modifies this
      ensures errors == Validate(old(formData))
      ensures submitted.Some? <==> errors == map[]
      ensures submitted.Some? ==> submitted.value == old(formData)
      ensures submitted.Some? && editing.None? ==> formData == NewForm(storedUserId)
      ensures submitted.None? || editing.Some? ==> formData == old(formData)
      ensures editing == old(editing)
    {
      errors := Validate(formData);
      if errors != map[] {
        return None;
      }
      submitted := Some(formData);
      if editing.None? {
        formData := NewForm(storedUserId);
      }
    }
  }
}
