/** `validateForm` and the request of the forgotten-password page. The input is trimmed and
    lower-cased before it is checked against the anchored email pattern, but what the page
    submits is the input as typed. */
module ForgetPasswordPage {
  import opened Wrappers
  import opened Text
  import opened EmailShape
  import opened UserModel

  /** What one call produces: its return value and the toast it raised. */
  datatype Validation = Validation(ok: bool, toast: Option<string>)

  /** The value the checks run on: `email.trim().toLowerCase()`. */
  function Normalised(email: string): (value: string) {
    ToLower(Trim(email))
  }

  /** `validateForm`: a blank value is reported as missing, a value that does not match
      `^[^\s@]+@[^\s@]+\.[^\s@]+$` as invalid; the form passes exactly when the normalised value
      matches, and it then holds exactly one `@` and no white space. */
  function Validate(email: string): (v: Validation)
    ensures v.ok <==> MatchesStrictEmail(Normalised(email))
    ensures v.ok <==> v.toast.None?
    ensures Normalised(email) == "" ==> v.toast == Some("Email is required")
    ensures v.ok ==> NoWhitespace(Normalised(email))
    ensures v.ok ==> exists p | 0 <= p < |Normalised(email)| ::
                       Normalised(email)[p] == '@' && forall i | 0 <= i < |Normalised(email)| && Normalised(email)[i] == '@' :: i == p
  {
    var value := Normalised(email);
    if value == "" then Validation(false, Some("Email is required"))
    else if !MatchesStrictEmail(value) then Validation(false, Some("Enter a valid email address"))
    else
      StrictEmailShape(value);
      Validation(true, None)
  }

  /** `handleSubmit`: the raw input is sent when the form passes. */
  function Request(email: string): (r: Option<string>)
    ensures r.Some? <==> Validate(email).ok
    ensures r.Some? ==> r.value == email
  {
    if Validate(email).ok then Some(email) else None
  }

  /** Sending the raw input is harmless for the lookup: the server normalises the email of its
      query to the very value the page checked. */
  lemma SubmittedEmailFindsCheckedAccount(email: string)
    requires Request(email).Some?
    ensures NormalizeEmail(Request(email).value) == Normalised(email)
    ensures IsNormalEmail(Normalised(email))
  {
    TrimToLowerCommute(email);
    TrimNoUpper(ToLower(email));
  }
}
