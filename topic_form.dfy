/**
 * The topic form: a new form selects the first subject, an edited topic
 * prefills its subject, title and link with no files; the form is
 * submitted only when its error map is empty, and a create form then
 * returns to its default. A subject id is `None` when unset (the select's
 * empty option).
 */
module TopicForm {
  import opened Wrappers
  import opened JsText
  import opened Validation

  datatype Field = SubjectId | Title | ExternalLink

  /** The form's contents; a chosen file is represented by its name. */
  datatype FormData = FormData(subjectId: Option<int>, title: string, externalLink: string,
                               video: Option<string>, pdf: Option<string>)

  /** The topic being edited, as far as the form reads it (missing fields as `None`). */
  datatype EditingTopic = EditingTopic(subjectId: Option<int>, title: Option<string>, externalLink: Option<string>)

  /** A new form: the first listed subject (none when there are none), empty texts, no files. */
  function DefaultForm(subjects: seq<int>): (f: FormData)
    ensures f.subjectId == (if |subjects| > 0 then Some(subjects[0]) else None)
    ensures f.title == "" && f.externalLink == "" && f.video.None? && f.pdf.None?
  {
    FormData(if |subjects| > 0 then Some(subjects[0]) else None, "", "", None, None)
  }

  /** The prefill effect: an edited topic's fields ('' for missing texts) and no files; the default otherwise. */
  function Prefill(editing: Option<EditingTopic>, subjects: seq<int>): (f: FormData)
    ensures editing.None? ==> f == DefaultForm(subjects)
    ensures editing.Some? ==>
              && f.subjectId == editing.value.subjectId
              && f.title == editing.value.title.GetOr("")
              && f.externalLink == editing.value.externalLink.GetOr("")
              && f.video.None? && f.pdf.None?
  {
    if editing.Some? then
      FormData(editing.value.subjectId, editing.value.title.GetOr(""), editing.value.externalLink.GetOr(""), None, None)
    else DefaultForm(subjects)
  }

  /** `validateForm`'s error map. */
  function Validate(f: FormData): (errors: map<Field, string>)
    ensures SubjectId in errors <==> f.subjectId.None?
    ensures SubjectId in errors ==> errors[SubjectId] == "Subject is required"
    ensures Title in errors <==> JsTrim(f.title) == ""
    ensures Title in errors ==> errors[Title] == "Topic title is required"
    ensures ExternalLink !in errors
  {
    var e1 := if f.subjectId.None? then map[SubjectId := "Subject is required"] else map[];
    if JsTrim(f.title) == "" then e1[Title := "Topic title is required"] else e1
  }

  /** The form is valid exactly when a subject is selected and the title is not blank. */
  lemma ValidateEmptyIff(f: FormData)
    ensures Validate(f) == map[] <==> f.subjectId.Some? && !IsBlank(f.title)
  {
    TrimEmptyIffBlank(f.title);
    var e := Validate(f);
    if e != map[] {
      var k :| k in e;
    }
  }

  class TopicFormState {
    var formData: FormData
    var errors: map<Field, string>
    var editing: Option<EditingTopic>
    var subjects: seq<int>

    constructor(subjects: seq<int>)
      ensures formData == DefaultForm(subjects) && errors == map[] && editing.None? && this.subjects == subjects
    {
      formData := DefaultForm(subjects);
      errors := map[];
      editing := None;
      this.subjects := subjects;
    }

    /** The effect run when the edited topic or the subject list changes. */
    method SetProps(editingTopic: Option<EditingTopic>, subjects: seq<int>)
      modifies this
      ensures editing == editingTopic && this.subjects == subjects
      ensures formData == Prefill(editingTopic, subjects) && errors == old(errors)
    {
      editing := editingTopic;
      this.subjects := subjects;
      formData := Prefill(editingTopic, subjects);
    }

    /** `handleChange` on the title or the link. */
    method ChangeText(field: Field, value: string)
      requires field != SubjectId
      modifies this
      ensures formData == if field == Title then old(formData).(title := value) else old(formData).(externalLink := value)
      ensures errors == ClearError(old(errors), field)
      ensures editing == old(editing) && subjects == old(subjects)
    {
      formData := if field == Title then formData.(title := value) else formData.(externalLink := value);
      errors := ClearError(errors, field);
    }

    /** `handleChange` on the subject select. */
    method ChooseSubject(subjectId: Option<int>)
      modifies this
      ensures formData == old(formData).(subjectId := subjectId)
      ensures errors == ClearError(old(errors), SubjectId)
      ensures editing == old(editing) && subjects == old(subjects)
    {
      formData := formData.(subjectId := subjectId);
      errors := ClearError(errors, SubjectId);
    }

    /** `handleFileChange`: a chosen file is stored; choosing none leaves the field as it was. */
    method ChooseFile(isVideo: bool, file: Option<string>)
      modifies this
      ensures file.None? ==> formData == old(formData)
      ensures file.Some? && isVideo ==> formData == old(formData).(video := file)
      ensures file.Some? && !isVideo ==> formData == old(formData).(pdf := file)
      ensures errors == old(errors) && editing == old(editing) && subjects == old(subjects)
    {
      if file.Some? {
        formData := if isVideo then formData.(video := file) else formData.(pdf := file);
      }
    }

    /**
     * `handleSubmit`: the error map is shown; when it is empty the form's
     * data is handed to `onSubmit` (the result), and a create form goes
     * back to its default, files included.
     */
    method Submit() returns (submitted: Option<FormData>)
      modifies this
      ensures errors == Validate(old(formData))
      ensures submitted.Some? <==> errors == map[]
      ensures submitted.Some? ==> submitted.value == old(formData)
      ensures submitted.Some? && editing.None? ==> formData == DefaultForm(subjects)
      ensures submitted.None? || editing.Some? ==> formData == old(formData)
      ensures editing == old(editing) && subjects == old(subjects)
    {
      errors := Validate(formData);
      if errors != map[] {
        return None;
      }
      submitted := Some(formData);
      if editing.None? {
        formData := DefaultForm(subjects);
      }
    }
  }
}
