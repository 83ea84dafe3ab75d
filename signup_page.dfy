/** `validateForm` of the signup page: an ordered rule table checked first to last, the first
    failing rule shown in a toast, then a confirm-password check that sets the inline password
    error. The page submits when the returned value is truthy; `toast.error` returns the id of
    the toast it raised, a non-empty string, which is a parameter here. */
module SignupPage {
  import opened Wrappers
  import opened Text
  import opened FormRules
  import opened EmailShape

  datatype SignupForm = SignupForm(
    firstName: string, lastName: string, email: string, password: string, confirmPassword: string)

  /** What one call produces: its return value, the toast it raised, and the value it gave the
      password error (`None` when it left the error alone). */
  datatype Validation = Validation(result: JsValue, toast: Option<string>, passwordError: Option<string>)

  const PasswordMismatch: string := "Passwords do not match"

  /** The rule table, in order. `.length` counts UTF-16 code units. */
  function Rules(f: SignupForm): (rules: seq<Rule>) {
    [ Rule(f.firstName == "", "First Name is required"),
      Rule(Utf16Length(f.firstName) < 3, "First must be at least 3 characters"),
      Rule(f.lastName == "", "Last Name is required"),
      Rule(Utf16Length(f.lastName) < 3, "Last must be at least 3 characters"),
      Rule(Trim(f.email) == "", "Email is required"),
      Rule(!ContainsLooseEmail(f.email), "Invalid email format"),
      Rule(f.password == "", "Password is required"),
      Rule(Utf16Length(f.password) < 6, "Password must be at least 6 characters") ]
  }

  /** Every rule passes exactly when both names have three characters, the email contains
      something of the form `x@y.z` and the password has six characters; the emptiness and
      blankness rules only choose the message. */
  lemma {:induction false} RulesPassExactly(f: SignupForm)
    ensures FirstFailureMessage(Rules(f)).None? <==>
              && Utf16Length(f.firstName) >= 3 && Utf16Length(f.lastName) >= 3
              && ContainsLooseEmail(f.email) && Utf16Length(f.password) >= 6
  {
    var rules := Rules(f);
    if ContainsLooseEmail(f.email) {
      LooseEmailNotBlank(f.email);
    }
    assert rules[1].fails == (Utf16Length(f.firstName) < 3) && rules[3].fails == (Utf16Length(f.lastName) < 3);
    assert rules[5].fails == !ContainsLooseEmail(f.email) && rules[7].fails == (Utf16Length(f.password) < 6);
    assert rules[0].fails ==> rules[1].fails;
    assert rules[2].fails ==> rules[3].fails;
    assert rules[4].fails ==> rules[5].fails;
    assert rules[6].fails ==> rules[7].fails;
  }

  /** `validateForm` as written: a failing rule returns the toast's id, a password mismatch returns
      `false` with the inline error, and otherwise the error is cleared and `true` returned. */
  function Validate(f: SignupForm, toastId: string): (v: Validation)
    ensures v.toast == FirstFailureMessage(Rules(f))
    ensures v.toast.Some? ==> v.result == JsString(toastId) && v.passwordError.None?
    ensures v.toast.None? && f.confirmPassword != f.password ==>
              v.result == JsBool(false) && v.passwordError == Some(PasswordMismatch)
    ensures v.toast.None? && f.confirmPassword == f.password ==>
              v.result == JsBool(true) && v.passwordError == Some("")
  {
    var m := FirstFailureMessage(Rules(f));
    if m.Some? then Validation(JsString(toastId), m, None)
    else if f.confirmPassword != f.password then Validation(JsBool(false), None, Some(PasswordMismatch))
    else Validation(JsBool(true), None, Some(""))
  }

  /** The handler itself: the `for ... of` loop over the table, then the confirm check. */
  method ValidateForm(f: SignupForm, toastId: string) returns (v: Validation)
    ensures v == Validate(f, toastId)
  {
    var rules := Rules(f);
    var failed := ScanRules(rules);
    if failed.Some? {
      return Validation(JsString(toastId), Some(rules[failed.value].message), None);
    }
    if f.confirmPassword != f.password {
      return Validation(JsBool(false), None, Some(PasswordMismatch));
    }
    v := Validation(JsBool(true), None, Some(""));
  }

  /** The rules are checked before the passwords are compared: a mismatch is reported only when
      every rule passes, and a name shorter than three characters is reported first of all. */
  lemma ShortFirstNameReportedFirst(f: SignupForm, toastId: string)
    requires Utf16Length(f.firstName) < 3
    ensures Validate(f, toastId).toast ==
              Some(if f.firstName == "" then "First Name is required" else "First must be at least 3 characters")
    ensures Validate(f, toastId).passwordError.None?
  {
    FirstFailingIndexIs(Rules(f), if f.firstName == "" then 0 else 1);
  }

  /** The page submits when `validateForm`'s value is truthy. As written it submits whenever the
      passwords match or some rule fails, since the toast id is a non-empty string. */
  lemma SubmitsAfterFailedRule(f: SignupForm, toastId: string)
    requires toastId != ""
    ensures Truthy(Validate(f, toastId).result) <==>
              FirstFailureMessage(Rules(f)).Some? || f.confirmPassword == f.password
  {
  }

  /** The empty form is submitted. */
  lemma EmptyFormSubmits(toastId: string)
    requires toastId != ""
    ensures Validate(SignupForm("", "", "", "", ""), toastId).toast == Some("First Name is required")
    ensures Truthy(Validate(SignupForm("", "", "", "", ""), toastId).result)
  {
    FirstFailingIndexIs(Rules(SignupForm("", "", "", "", "")), 0);
  }

  /** What the form is meant to accept: every rule passes and the passwords match. */
  predicate FormAccepted(f: SignupForm) {
    && Utf16Length(f.firstName) >= 3 && Utf16Length(f.lastName) >= 3
    && ContainsLooseEmail(f.email) && Utf16Length(f.password) >= 6
    && f.confirmPassword == f.password
  }

  /** `validateForm` returning `false` after the toast, as the failure branch evidently means to. */
  function ValidateCorrected(f: SignupForm, toastId: string): (v: Validation)
    ensures v.toast == Validate(f, toastId).toast && v.passwordError == Validate(f, toastId).passwordError
    ensures v.toast.Some? ==> v.result == JsBool(false)
  {
    var v := Validate(f, toastId);
    if v.toast.Some? then v.(result := JsBool(false)) else v
  }

  /** With the correction the page submits exactly the forms it means to accept. */
  lemma CorrectedSubmitsExactlyAccepted(f: SignupForm, toastId: string)
    ensures Truthy(ValidateCorrected(f, toastId).result) <==> FormAccepted(f)
  {
    RulesPassExactly(f);
  }
}
