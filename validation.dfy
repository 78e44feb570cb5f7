/**
 * What the page forms share: the email patterns they test, how a field's
 * error is cleared while typing, and where a role is sent after signing in
 * or up. `RegExp.prototype.test` succeeds when some substring matches.
 */
module Validation {
  import opened JsText

  /** `\S`: any character that is not JavaScript white space. */
  predicate IsNonSpace(c: char) { !IsJsWhitespace(c) }

  /** `s[i..j]` matches `\S*`. */
  predicate NonSpaceRun(s: string, i: int, j: int)
    requires 0 <= i <= j <= |s|
  {
    forall k | i <= k < j :: IsNonSpace(s[k])
  }

  /**
   * `s[i..j]` is a match of `\S+@\S+\.\S+` whose '@' is at `a` and whose
   * '.' is at `d`.
   */
  predicate SignupMatchAt(s: string, i: int, a: int, d: int, j: int) {
    && 0 <= i < a && a + 1 < d && d + 1 < j <= |s|
    && s[a] == '@' && s[d] == '.'
    && NonSpaceRun(s, i, a) && NonSpaceRun(s, a + 1, d) && NonSpaceRun(s, d + 1, j)
  }

  /** `s[i..d + 2]` is a match of `\S+@\S+\.\S` whose '@' is at `a` and whose '.' is at `d`. */
  predicate LoginMatchAt(s: string, i: int, a: int, d: int) {
    && 0 <= i < a && a + 1 < d && d + 2 <= |s|
    && s[a] == '@' && s[d] == '.'
    && NonSpaceRun(s, i, a) && NonSpaceRun(s, a + 1, d) && IsNonSpace(s[d + 1])
  }

  /** `/\S+@\S+\.\S+/.test(s)`. */
  predicate SignupEmailTest(s: string)
    ensures SignupEmailTest(s) ==> '@' in s && '.' in s && |s| >= 5
  {
    exists i, a, d, j | 0 <= i < a < d < j <= |s| :: SignupMatchAt(s, i, a, d, j)
  }

  /** `/\S+@\S+\.\S/.test(s)`. */
  predicate LoginEmailTest(s: string)
    ensures LoginEmailTest(s) ==> '@' in s && '.' in s && |s| >= 5
  {
    exists i, a, d | 0 <= i < a < d < |s| :: LoginMatchAt(s, i, a, d)
  }

  /**
   * The shape both patterns look for: an '@' with a non-space character
   * before it, then a non-empty run of non-space characters, then a '.'
   * followed by a non-space character.
   */
  predicate EmailShape(s: string) {
    exists a, d | 0 <= a < d < |s| :: EmailShapeAt(s, a, d)
  }

  /** The shape, with its '@' at `a` and its '.' at `d`. */
  predicate EmailShapeAt(s: string, a: int, d: int) {
    && 1 <= a && a + 1 < d && d + 1 < |s|
    && s[a] == '@' && s[d] == '.' && IsNonSpace(s[a - 1]) && IsNonSpace(s[d + 1])
    && NonSpaceRun(s, a + 1, d)
  }

  /** A character of a run of non-space characters is non-space. */
  lemma InRun(s: string, i: int, j: int, k: int)
    requires 0 <= i <= k < j <= |s| && NonSpaceRun(s, i, j)
    ensures IsNonSpace(s[k])
  {
  }

  /** A signup match yields the shape. */
  lemma SignupMatchGivesShape(s: string, i: int, a: int, d: int, j: int)
    requires SignupMatchAt(s, i, a, d, j)
    ensures EmailShape(s)
  {
    InRun(s, i, a, a - 1);
    InRun(s, d + 1, j, d + 1);
    assert EmailShapeAt(s, a, d);
  }

  /** The shape yields a signup match and a login match, both starting just before the '@'. */
  lemma ShapeGivesMatches(s: string, a: int, d: int)
    requires EmailShapeAt(s, a, d)
    ensures SignupMatchAt(s, a - 1, a, d, d + 2) && LoginMatchAt(s, a - 1, a, d)
  {
    assert NonSpaceRun(s, a - 1, a);
    assert NonSpaceRun(s, d + 1, d + 2);
  }

  /** The signup pattern finds a match exactly when the email has the shape. */
  lemma SignupEmailTestIsShape(s: string)
    ensures SignupEmailTest(s) <==> EmailShape(s)
  {
    if SignupEmailTest(s) {
      var i, a, d, j :| 0 <= i < a < d < j <= |s| && SignupMatchAt(s, i, a, d, j);
      SignupMatchGivesShape(s, i, a, d, j);
    }
    if EmailShape(s) {
      var a, d :| 0 <= a < d < |s| && EmailShapeAt(s, a, d);
      ShapeGivesMatches(s, a, d);
    }
  }

  /** The login pattern finds a match exactly when the email has the shape. */
  lemma LoginEmailTestIsShape(s: string)
    ensures LoginEmailTest(s) <==> EmailShape(s)
  {
    if LoginEmailTest(s) {
      var i, a, d :| 0 <= i < a < d < |s| && LoginMatchAt(s, i, a, d);
      InRun(s, i, a, a - 1);
      assert EmailShapeAt(s, a, d);
    }
    if EmailShape(s) {
      var a, d :| 0 <= a < d < |s| && EmailShapeAt(s, a, d);
      ShapeGivesMatches(s, a, d);
    }
  }

  /**
   * Although the login pattern lacks the final `+`, under `test` it
   * accepts exactly the emails the signup pattern accepts.
   */
  lemma LoginAndSignupEmailTestsAgree(s: string)
    ensures LoginEmailTest(s) <==> SignupEmailTest(s)
  {
    SignupEmailTestIsShape(s);
    LoginEmailTestIsShape(s);
  }

  /**
   * `handleChange`'s error clearing: a field with a truthy error gets the
   * error "", every other entry stays as it was.
   */
  function ClearError<F>(errors: map<F, string>, field: F): (r: map<F, string>)
    ensures r.Keys == errors.Keys
    ensures field in r ==> r[field] == ""
    ensures forall g :: g in errors && g != field ==> r[g] == errors[g]
  {
    if field in errors && errors[field] != "" then errors[field := ""] else errors
  }

  /** Where a signed-in user is sent, by role. */
  function RedirectFor(role: string): (r: string)
    ensures role == "STUDENT" ==> r == "/student-dashboard"
    ensures role == "INSTRUCTOR" ==> r == "/instructor-dashboard"
    ensures role == "ADMIN" ==> r == "/admin-dashboard"
    ensures role != "STUDENT" && role != "INSTRUCTOR" && role != "ADMIN" ==> r == "/dashboard"
  {
    if role == "STUDENT" then "/student-dashboard"
    else if role == "INSTRUCTOR" then "/instructor-dashboard"
    else if role == "ADMIN" then "/admin-dashboard"
    else "/dashboard"
  }
}
