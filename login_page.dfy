/** `validateForm` of the login page: a four-rule table checked first to last, the first failing
    rule shown in a toast. The page submits when the returned value is truthy; `toast.error`
    returns the id of the toast it raised, a non-empty string, which is a parameter here. */
module LoginPage {
  import opened Wrappers
  import opened Text
  import opened FormRules
  import opened EmailShape

  datatype LoginForm = LoginForm(email: string, password: string)

  /** What one call produces: its return value and the toast it raised. */
  datatype Validation = Validation(result: JsValue, toast: Option<string>)

  /** The rule table, in order. `.length` counts UTF-16 code units. */
  function Rules(f: LoginForm): (rules: seq<Rule>) {
    [ Rule(Trim(f.email) == "", "Email is required"),
      Rule(!ContainsLooseEmail(f.email), "Invalid email format"),
      Rule(f.password == "", "Password is required"),
      Rule(Utf16Length(f.password) < 6, "Password must be at least 6 characters") ]
  }

  /** Every rule passes exactly when the email contains something of the form `x@y.z` and the
      password has six characters. */
  lemma {:induction false} RulesPassExactly(f: LoginForm)
    ensures FirstFailureMessage(Rules(f)).None? <==> ContainsLooseEmail(f.email) && Utf16Length(f.password) >= 6
  {
    var rules := Rules(f);
    if ContainsLooseEmail(f.email) {
      LooseEmailNotBlank(f.email);
    }
    assert rules[1].fails == !ContainsLooseEmail(f.email) && rules[3].fails == (Utf16Length(f.password) < 6);
    assert rules[0].fails ==> rules[1].fails;
    assert rules[2].fails ==> rules[3].fails;
  }

  /** `validateForm` as written: a failing rule returns the toast's id, otherwise `true`. */
  function Validate(f: LoginForm, toastId: string): (v: Validation)
    ensures v.toast == FirstFailureMessage(Rules(f))
    ensures v.result == if v.toast.Some? then JsString(toastId) else JsBool(true)
  {
    var m := FirstFailureMessage(Rules(f));
    if m.Some? then Validation(JsString(toastId), m) else Validation(JsBool(true), None)
  }

  /** The handler itself: the `for ... of` loop over the table. */
  method ValidateForm(f: LoginForm, toastId: string) returns (v: Validation)
    ensures v == Validate(f, toastId)
  {
    var rules := Rules(f);
    var failed := ScanRules(rules);
    if failed.Some? {
      return Validation(JsString(toastId), Some(rules[failed.value].message));
    }
    v := Validation(JsBool(true), None);
  }

  /** A blank email is reported as missing, not as badly formatted. */
  lemma BlankEmailIsRequired(f: LoginForm, toastId: string)
    requires AllWhitespace(f.email)
    ensures Validate(f, toastId).toast == Some("Email is required")
  {
    FirstFailingIndexIs(Rules(f), 0);
  }

  /** As written the page submits every form, since the toast id is a non-empty string. */
  lemma SubmitsAfterFailedRule(f: LoginForm, toastId: string)
    requires toastId != ""
    ensures Truthy(Validate(f, toastId).result)
  {
  }

  /** `validateForm` returning `false` after the toast, as the failure branch evidently means to. */
  function ValidateCorrected(f: LoginForm, toastId: string): (v: Validation)
    ensures v.toast == Validate(f, toastId).toast
    ensures v.toast.Some? ==> v.result == JsBool(false)
  {
    var v := Validate(f, toastId);
    if v.toast.Some? then v.(result := JsBool(false)) else v
  }

  /** With the correction the page submits exactly the forms whose email has the `x@y.z` shape and
      whose password has six characters. */
  lemma CorrectedSubmitsExactlyAccepted(f: LoginForm, toastId: string)
    ensures Truthy(ValidateCorrected(f, toastId).result) <==> ContainsLooseEmail(f.email) && Utf16Length(f.password) >= 6
  {
    RulesPassExactly(f);
  }
}
