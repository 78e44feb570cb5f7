/**
 * The sign-up page: the form's fields, the error map `validate` builds
 * (one message per failing field, the first failing check's), and the
 * submission, which registers only with an empty error map and then sends
 * the user to the dashboard of their role.
 */
module Signup {
  import opened Wrappers
  import opened Validation

  datatype Field = FullName | Email | Password | ConfirmPassword | Role

  datatype FormData = FormData(fullName: string, email: string, password: string, confirmPassword: string, role: string)

  /** The form's contents with one field replaced, as `handleChange` stores a typed value. */
  function WithField(f: FormData, field: Field, value: string): (r: FormData)
    ensures field == FullName ==> r == f.(fullName := value)
    ensures field == Email ==> r == f.(email := value)
    ensures field == Password ==> r == f.(password := value)
    ensures field == ConfirmPassword ==> r == f.(confirmPassword := value)
    ensures field == Role ==> r == f.(role := value)
  {
    match field
    case FullName => f.(fullName := value)
    case Email => f.(email := value)
    case Password => f.(password := value)
    case ConfirmPassword => f.(confirmPassword := value)
    case Role => f.(role := value)
  }

  /** The message of a field's first failing check in `validate`, if one fails. */
  function FieldError(f: FormData, field: Field): Option<string> {
    match field
    case FullName =>
      if f.fullName == "" then Some("Full name is required")
      else if |f.fullName| < 2 then Some("Full name must be at least 2 characters")
      else None
    case Email =>
      if f.email == "" then Some("Email is required")
      else if !SignupEmailTest(f.email) then Some("Email is invalid")
      else None
    case Password =>
      if f.password == "" then Some("Password is required")
      else if |f.password| < 6 then Some("Password must be at least 6 characters")
      else None
    case ConfirmPassword =>
      if f.confirmPassword == "" then Some("Please confirm your password")
      else if f.password != f.confirmPassword then Some("Passwords do not match")
      else None
    case Role => None
  }

  /** `validate`: each field's first failing check, by field. */
  function Validate(f: FormData): (errors: map<Field, string>)
    ensures FullName in errors <==> |f.fullName| < 2
    ensures FullName in errors ==>
              errors[FullName] == if f.fullName == "" then "Full name is required" else "Full name must be at least 2 characters"
    ensures Email in errors <==> f.email == "" || !SignupEmailTest(f.email)
    ensures Email in errors ==> errors[Email] == if f.email == "" then "Email is required" else "Email is invalid"
    ensures Password in errors <==> |f.password| < 6
    ensures Password in errors ==>
              errors[Password] == if f.password == "" then "Password is required" else "Password must be at least 6 characters"
    ensures ConfirmPassword in errors <==> f.confirmPassword == "" || f.password != f.confirmPassword
    ensures ConfirmPassword in errors ==>
              errors[ConfirmPassword] == if f.confirmPassword == "" then "Please confirm your password" else "Passwords do not match"
    ensures Role !in errors
  {
    map field: Field | FieldError(f, field).Some? :: FieldError(f, field).value
  }

  /**
   * The form passes exactly when the name has two characters or more, the
   * email has the `x@y.z` shape, the password six characters or more and
   * the confirmation repeats it.
   */
  lemma ValidateEmptyIff(f: FormData)
    ensures Validate(f) == map[] <==>
              |f.fullName| >= 2 && EmailShape(f.email) && |f.password| >= 6 && f.confirmPassword == f.password
  {
    SignupEmailTestIsShape(f.email);
    var e := Validate(f);
    if e != map[] {
      var k :| k in e;
    }
    if EmailShape(f.email) {
      assert f.email != "";
    }
  }

  /** What the authentication service answered: the account's role on success, a message on failure. */
  datatype AuthOutcome = Succeeded(role: Option<string>) | Failed(message: string)

  /** The role a successful registration navigates by: the answered role when truthy, else the chosen one. */
  function UserRole(answered: Option<string>, chosen: string): (r: string)
    ensures r == chosen || Some(r) == answered
    ensures r != "" <==> chosen != "" || (answered.Some? && answered.value != "")
  {
    if answered.Some? && answered.value != "" then answered.value else chosen
  }

  class SignupPage {
    var formData: FormData
    var errors: map<Field, string>
    var apiError: string

    constructor()
      ensures formData == FormData("", "", "", "", "STUDENT") && errors == map[] && apiError == ""
    {
      formData := FormData("", "", "", "", "STUDENT");
      errors := map[];
      apiError := "";
    }

    /** `handleChange`: stores the value, clears that field's error, and clears the service error. */
    method Change(field: Field, value: string)
      modifies this
      ensures formData == WithField(old(formData), field, value)
      ensures errors == ClearError(old(errors), field)
      ensures apiError == ""
    {
      formData := WithField(formData, field, value);
      errors := ClearError(errors, field);
      apiError := "";
    }

    /**
     * `handleSubmit`: with errors, they are shown and nothing is sent;
     * otherwise the registration is sent, and its answer either navigates
     * by role or is shown as the service error. `outcome` stands for the
     * service's answer.
     */
    method Submit(outcome: AuthOutcome) returns (attempted: bool, navigation: Option<string>)
      modifies this
      ensures attempted <==> Validate(old(formData)) == map[]
      ensures formData == old(formData)
      ensures !attempted ==> errors == Validate(formData) && apiError == old(apiError) && navigation.None?
      ensures attempted ==> errors == old(errors)
      ensures attempted && outcome.Succeeded? ==>
                navigation == Some(RedirectFor(UserRole(outcome.role, formData.role))) && apiError == ""
      ensures attempted && outcome.Failed? ==>
                navigation.None?
                && apiError == (if outcome.message != "" then outcome.message else "Registration failed. Please try again.")
    {
      var newErrors := Validate(formData);
      if newErrors != map[] {
        errors := newErrors;
        return false, None;
      }
      apiError := "";
      attempted := true;
      match outcome {
        case Succeeded(role) =>
          navigation := Some(RedirectFor(UserRole(role, formData.role)));
        case Failed(message) =>
          apiError := if message != "" then message else "Registration failed. Please try again.";
          navigation := None;
      }
    }
  }
}
