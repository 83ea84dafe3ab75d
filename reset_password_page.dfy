/** `validateForm` and the payload of the new-password page. The email is the one the
    forgotten-password flow stored in `sessionStorage` (`None` when nothing is stored); the
    JSON body then carries `null`, which the server's chain treats as a missing field. */
module ResetPasswordPage {
  import opened Wrappers
  import opened Text
  import opened AuthValidator

  datatype ResetForm = ResetForm(email: Option<string>, password: string, confirmPassword: string)

  /** What one call produces: its return value, the toasts it raised in order, and the value it
      gave the password error (`None` when it left the error alone). */
  datatype Validation = Validation(ok: bool, toasts: seq<string>, passwordError: Option<string>)

  const PasswordRequired: string := "Password is required"
  const PasswordTooShort: string := "Password must be at least 6 characters"
  const PasswordMismatch: string := "Passwords do not match"

  /** `validateForm` as written. An empty password is refused; a password of at most six UTF-16
      code units only raises a warning toast; a mismatch is refused with the inline error; and
      otherwise the error is cleared. So the form passes exactly when the password is non-empty
      and confirmed, whatever its length. */
  function Validate(f: ResetForm): (v: Validation)
    ensures v.ok <==> f.password != "" && f.confirmPassword == f.password
    ensures PasswordTooShort in v.toasts <==> f.password != "" && Utf16Length(f.password) <= 6
    ensures f.password == "" ==> v.toasts == [PasswordRequired] && v.passwordError.None?
    ensures f.password != "" ==>
              v.passwordError == Some(if f.confirmPassword == f.password then "" else PasswordMismatch)
  {
    if f.password == "" then Validation(false, [PasswordRequired], None)
    else
      var warning := if Utf16Length(f.password) <= 6 then [PasswordTooShort] else [];
      if f.confirmPassword != f.password then Validation(false, warning, Some(PasswordMismatch))
      else Validation(true, warning, Some(""))
  }

  /** `handleSubmit`'s payload: the stored email, or the empty value when none is stored, and the
      password as typed. */
  function Payload(f: ResetForm): (b: ResetBody)
    ensures b.newPassword == f.password
    ensures f.email.Some? ==> b.email == f.email.value
    ensures f.email.None? ==> b.email == ""
  {
    ResetBody(if f.email.Some? then f.email.value else "", f.password)
  }

  /** Without a stored email every submission is refused by the server's chain. */
  lemma MissingStoredEmailRefused(f: ResetForm, isEmail: string -> bool)
    requires f.email.None?
    ensures ResetPasswordValidator(Payload(f), isEmail).Failure?
  {
  }

  /** As written, a one-character password passes the page and is sent, and the server's chain
      then refuses it. */
  lemma ShortPasswordSubmitted(email: string, isEmail: string -> bool)
    ensures var f := ResetForm(Some(email), "a", "a");
            && Validate(f).ok && Validate(f).toasts == [PasswordTooShort]
            && ResetPasswordValidator(Payload(f), isEmail).Failure?
  {
    assert Utf16Length("a") == 1 && ValidatorLength("a") == 1;
  }

  /** The check the warning evidently stands for: fewer than six characters refuses the form. */
  function ValidateCorrected(f: ResetForm): (v: Validation)
    ensures v.ok <==> f.password != "" && Utf16Length(f.password) >= 6 && f.confirmPassword == f.password
    ensures !v.ok ==> v.toasts != [] || v.passwordError == Some(PasswordMismatch)
  {
    if f.password == "" then Validation(false, [PasswordRequired], None)
    else if Utf16Length(f.password) < 6 then Validation(false, [PasswordTooShort], None)
    else if f.confirmPassword != f.password then Validation(false, [], Some(PasswordMismatch))
    else Validation(true, [], Some(""))
  }

  /** With the correction, a password the page lets through also meets the server's six-character
      rule, when it is written without presentation selectors and inside the Basic Multilingual
      Plane, where both ways of counting agree. */
  lemma {:induction false} CorrectedPassesServerLength(f: ResetForm)
    requires ValidateCorrected(f).ok
    requires forall i | 0 <= i < |f.password| :: f.password[i] as int <= 0xFFFF && !IsVariationSelector(f.password[i])
    ensures ValidatorLength(Payload(f).newPassword) >= 6
  {
  }
}
