/**
 * The login page: the error map `validate` builds, and the submission,
 * which signs in only with an empty error map, refuses an account whose
 * role is not the one selected, and otherwise navigates by role.
 */
module Login {
  import opened Wrappers
  import opened Validation

  datatype Field = Email | Password | Role

  datatype FormData = FormData(email: string, password: string, role: string)

  /** The form's contents with one field replaced, as `handleChange` stores a typed value. */
  function WithField(f: FormData, field: Field, value: string): (r: FormData)
    ensures field == Email ==> r == f.(email := value)
    ensures field == Password ==> r == f.(password := value)
    ensures field == Role ==> r == f.(role := value)
  {
    match field
    case Email => f.(email := value)
    case Password => f.(password := value)
    case Role => f.(role := value)
  }

  /** `validate`: each field's first failing check, by field. */
  function Validate(f: FormData): (errors: map<Field, string>)
    ensures Email in errors <==> f.email == "" || !LoginEmailTest(f.email)
    ensures Email in errors ==> errors[Email] == if f.email == "" then "Email is required" else "Email is invalid"
    ensures Password in errors <==> |f.password| < 6
    ensures Password in errors ==>
              errors[Password] == if f.password == "" then "Password is required" else "Password must be at least 6 characters"
    ensures Role in errors <==> f.role == ""
    ensures Role in errors ==> errors[Role] == "Please select your account type"
  {
    var e1 := if f.email == "" then map[Email := "Email is required"]
              else if !LoginEmailTest(f.email) then map[Email := "Email is invalid"]
              else map[];
    var e2 := if f.password == "" then e1[Password := "Password is required"]
              else if |f.password| < 6 then e1[Password := "Password must be at least 6 characters"]
              else e1;
    if f.role == "" then e2[Role := "Please select your account type"] else e2
  }

  /**
   * The form passes exactly when the email has the `x@y.z` shape, which is
   * also what the sign-up pattern accepts, the password has six characters
   * or more and a role is selected.
   */
  lemma ValidateEmptyIff(f: FormData)
    ensures Validate(f) == map[] <==> EmailShape(f.email) && |f.password| >= 6 && f.role != ""
    ensures Validate(f) == map[] ==> SignupEmailTest(f.email)
  {
    LoginEmailTestIsShape(f.email);
    LoginAndSignupEmailTestsAgree(f.email);
    var e := Validate(f);
    if e != map[] {
      var k :| k in e;
    }
    if EmailShape(f.email) {
      assert f.email != "";
    }
  }

  /** What the authentication service answered: the account's role (possibly undefined) or a failure message. */
  datatype AuthOutcome = Succeeded(role: Option<string>) | Failed(message: string)

  /** A role as a template literal writes it. */
  function RoleText(role: Option<string>): string {
    if role.Some? then role.value else "undefined"
  }

  /** The message shown when the account's role is not the selected one. */
  function RoleMismatch(accountRole: Option<string>, selected: string): (r: string)
    ensures var p := MismatchPrefix; var n := |r| - |selected| - 7;
            && |p| <= n && r[..|p|] == p
            && r[|p|..n] == RoleText(accountRole)
            && r[n..] == ", not " + selected + "."
  {
    var tail := ", not " + selected + ".";
    assert |tail| == |selected| + 7;
    ThreeParts(MismatchPrefix, RoleText(accountRole), tail);
    MismatchPrefix + RoleText(accountRole) + tail
  }

  /** The three parts of a concatenation can be sliced back out of it. */
  lemma ThreeParts(p: string, m: string, q: string)
    ensures var s := p + m + q;
            && s[..|p|] == p && s[|p|..|p| + |m|] == m && s[|p| + |m|..] == q
  {
    var s := p + m + q;
    assert s[..|p|] == p;
    assert s[|p|..|p| + |m|] == m;
    assert s[|p| + |m|..] == q;
  }

  const MismatchPrefix := "Invalid credentials. This account is registered as "

  class LoginPage {
    var formData: FormData
    var errors: map<Field, string>
    var apiError: string

    constructor()
      ensures formData == FormData("", "", "STUDENT") && errors == map[] && apiError == ""
    {
      formData := FormData("", "", "STUDENT");
      errors := map[];
      apiError := "";
    }

    /** `handleChange`: stores the value, clears that field's error, and clears the service error. */
    method Change(field: Field, value: string)
      modifies this
      ensures formData == WithField(old(formData), field, value)
      ensures errors == ClearError(old(errors), field)
      ensures apiError == ""
    {
      formData := WithField(formData, field, value);
      errors := ClearError(errors, field);
      apiError := "";
    }

    /**
     * `handleSubmit`: with errors, they are shown and nothing is sent;
     * otherwise the credentials are sent. An account of another role than
     * the selected one is refused with a message and no navigation; a
     * matching one navigates by role. `outcome` stands for the service's
     * answer.
     */
    method Submit(outcome: AuthOutcome) returns (attempted: bool, navigation: Option<string>)
      modifies this
      ensures attempted <==> Validate(old(formData)) == map[]
      ensures formData == old(formData)
      ensures !attempted ==> errors == Validate(formData) && apiError == old(apiError) && navigation.None?
      ensures attempted ==> errors == old(errors)
      ensures navigation.Some? ==> outcome.Succeeded? && outcome.role == Some(formData.role)
      ensures attempted && outcome.Succeeded? && outcome.role == Some(formData.role) ==>
                navigation == Some(RedirectFor(formData.role)) && apiError == ""
      ensures attempted && outcome.Succeeded? && outcome.role != Some(formData.role) ==>
                navigation.None? && apiError == RoleMismatch(outcome.role, formData.role)
      ensures attempted && outcome.Failed? ==>
                navigation.None?
                && apiError == (if outcome.message != "" then outcome.message else "Login failed. Please check your credentials.")
    {
      var newErrors := Validate(formData);
      if newErrors != map[] {
        errors := newErrors;
        return false, None;
      }
      apiError := "";
      attempted := true;
      match outcome {
        case Succeeded(role) =>
          if role != Some(formData.role) {
            apiError := RoleMismatch(role, formData.role);
            return true, None;
          }
          navigation := Some(RedirectFor(role.value));
        case Failed(message) =>
          apiError := if message != "" then message else "Login failed. Please check your credentials.";
          navigation := None;
      }
    }
  }
}
