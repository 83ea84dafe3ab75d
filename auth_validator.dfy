/** The express-validator chains that run in front of the handlers. Every chain runs all of its
    checks and records the message of each one that fails; the `trim()` sanitizer, where a chain
    has one, rewrites the field in the request body before the checks after it and before the
    handler sees it. A request whose chains record any message is answered with those messages
    and never reaches the handler; otherwise the handler receives the sanitised body.
    validator.js `isEmail` is a parameter. An absent field is the empty string. */
module AuthValidator {
  import opened Wrappers
  import opened Text
  import opened FormRules
  import opened CodeGenerator
  import opened PasswordHasher
  import opened UserModel

  /** U+FE0E and U+FE0F, the text and emoji presentation selectors. */
  predicate IsVariationSelector(c: char) {
    c == '\U{FE0E}' || c == '\U{FE0F}'
  }

  /** validator.js `isLength`: code points, not counting presentation selectors. */
  function ValidatorLength(s: string): (n: nat)
    ensures n <= |s|
    ensures (forall i | 0 <= i < |s| :: !IsVariationSelector(s[i])) ==> n == |s|
  {
    if s == "" then 0 else (if IsVariationSelector(s[0]) then 0 else 1) + ValidatorLength(s[1..])
  }

  /** validator.js `isNumeric` with default options: `^[+-]?([0-9]*[.])?[0-9]+$`. */
  predicate IsNumeric(s: string) {
    if s != "" && (s[0] == '+' || s[0] == '-') then UnsignedNumeral(s[1..]) else UnsignedNumeral(s)
  }

  datatype SignupBody = SignupBody(email: string, password: string, fullname: FullName)
  datatype LoginBody = LoginBody(email: string, password: string)
  /** The body of both code checks, `verify-email` and `verify-reset-code`. */
  datatype CodeBody = CodeBody(email: string, code: string)
  datatype ResetBody = ResetBody(email: string, newPassword: string)

  /** What the `validate` step that follows the chains decides: the recorded messages, in chain
      order, or the sanitised body when there are none. */
  function Outcome<B>(errors: seq<string>, sanitised: B): (r: Result<B, seq<string>>)
    ensures r.Success? <==> errors == []
    ensures r.Success? ==> r.value == sanitised
    ensures r.Failure? ==> r.error == errors
  {
    if errors == [] then Success(sanitised) else Failure(errors)
  }

  /** An `email` chain, `notEmpty().isEmail()`, on the value it is given (already trimmed where
      the chain trims). */
  function EmailChain(email: string, isEmail: string -> bool, required: string, invalid: string): (ms: seq<string>)
    ensures ms == [] <==> email != "" && isEmail(email)
  {
    var rules := [Rule(email == "", required), Rule(!isEmail(email), invalid)];
    assert rules[0].fails == (email == "") && rules[1].fails == !isEmail(email);
    FailureMessages(rules)
  }

  /** A `notEmpty().isLength({ min })` chain: the non-empty check is implied by the length. */
  function MinLengthChain(value: string, min: nat, required: string, short: string): (ms: seq<string>)
    requires min > 0
    ensures ms == [] <==> ValidatorLength(value) >= min
  {
    var rules := [Rule(value == "", required), Rule(ValidatorLength(value) < min, short)];
    assert rules[0].fails ==> rules[1].fails;
    assert rules[1].fails == (ValidatorLength(value) < min);
    FailureMessages(rules)
  }

  /** The six-digit code chain, `notEmpty().isLength({ min: 6, max: 6 }).isNumeric()`. */
  function CodeChain(code: string, required: string, length: string, numeric: string): (ms: seq<string>)
    ensures ms == [] <==> ValidatorLength(code) == 6 && IsNumeric(code)
  {
    var rules := [Rule(code == "", required), Rule(ValidatorLength(code) != 6, length), Rule(!IsNumeric(code), numeric)];
    assert rules[0].fails ==> rules[1].fails;
    assert rules[1].fails == (ValidatorLength(code) != 6) && rules[2].fails == !IsNumeric(code);
    FailureMessages(rules)
  }

  /** `signupValidator`: a trimmed, non-blank address in email format, a password of at least six
      characters and two names of at least three. */
  function SignupValidator(b: SignupBody, isEmail: string -> bool): (r: Result<SignupBody, seq<string>>)
    ensures r.Success? <==>
              && Trim(b.email) != "" && isEmail(Trim(b.email))
              && ValidatorLength(b.password) >= MinPasswordLength
              && ValidatorLength(b.fullname.firstName) >= MinNameLength
              && ValidatorLength(b.fullname.lastName) >= MinNameLength
    ensures r.Success? ==> r.value == b.(email := Trim(b.email))
  {
    var email := Trim(b.email);
    var errors :=
      EmailChain(email, isEmail, "Email Required", "Invalid Email")
      + MinLengthChain(b.password, 6, "Password Required", "Password Must Be 6 character")
      + MinLengthChain(b.fullname.firstName, 3, "First Name required", "First name must be 3 Character")
      + MinLengthChain(b.fullname.lastName, 3, "Last Name required", "First name must be 3 Character");
    Outcome(errors, b.(email := email))
  }

  /** `loginValidator`: a trimmed, non-blank address in email format and a non-empty password of
      any length. */
  function LoginValidator(b: LoginBody, isEmail: string -> bool): (r: Result<LoginBody, seq<string>>)
    ensures r.Success? <==> Trim(b.email) != "" && isEmail(Trim(b.email)) && b.password != ""
    ensures r.Success? ==> r.value == b.(email := Trim(b.email))
  {
    var email := Trim(b.email);
    var errors :=
      EmailChain(email, isEmail, "Email required", "Invalid email")
      + (if b.password == "" then ["Password required"] else []);
    Outcome(errors, b.(email := email))
  }

  /** `verifyEmailValidator`: email and code are both trimmed, then the code must be six
      characters long and numeric. */
  function VerifyEmailValidator(b: CodeBody, isEmail: string -> bool): (r: Result<CodeBody, seq<string>>)
    ensures r.Success? <==>
              && Trim(b.email) != "" && isEmail(Trim(b.email))
              && ValidatorLength(Trim(b.code)) == 6 && IsNumeric(Trim(b.code))
    ensures r.Success? ==> r.value == CodeBody(Trim(b.email), Trim(b.code))
  {
    var email, code := Trim(b.email), Trim(b.code);
    var errors :=
      EmailChain(email, isEmail, "Email is required", "Invalid email format")
      + CodeChain(code, "Verification code is required", "Verification code must be 6 digits",
                  "Verification code must contain only numbers");
    Outcome(errors, CodeBody(email, code))
  }

  /** `resendOtpValidator`: a trimmed, non-blank address in email format. */
  function ResendOtpValidator(email: string, isEmail: string -> bool): (r: Result<string, seq<string>>)
    ensures r.Success? <==> Trim(email) != "" && isEmail(Trim(email))
    ensures r.Success? ==> r.value == Trim(email)
  {
    Outcome(EmailChain(Trim(email), isEmail, "Email is required", "Invalid email format"), Trim(email))
  }

  /** `requestResetValidator`: a non-empty address in email format, taken as it came. */
  function RequestResetValidator(email: string, isEmail: string -> bool): (r: Result<string, seq<string>>)
    ensures r.Success? <==> email != "" && isEmail(email)
    ensures r.Success? ==> r.value == email
  {
    Outcome(EmailChain(email, isEmail, "Email is required", "Invalid email"), email)
  }

  /** `verifyResetValidator`: like `verifyEmailValidator` but with nothing trimmed. */
  function VerifyResetValidator(b: CodeBody, isEmail: string -> bool): (r: Result<CodeBody, seq<string>>)
    ensures r.Success? <==>
              && b.email != "" && isEmail(b.email)
              && ValidatorLength(b.code) == 6 && IsNumeric(b.code)
    ensures r.Success? ==> r.value == b
  {
    var errors :=
      EmailChain(b.email, isEmail, "Email is required", "Invalid email")
      + CodeChain(b.code, "Code is required", "Code must be 6 digits", "Code must be numeric");
    Outcome(errors, b)
  }

  /** `resetPasswordValidator`: an untrimmed address in email format and a new password of at
      least six characters. */
  function ResetPasswordValidator(b: ResetBody, isEmail: string -> bool): (r: Result<ResetBody, seq<string>>)
    ensures r.Success? <==> b.email != "" && isEmail(b.email) && ValidatorLength(b.newPassword) >= MinPasswordLength
    ensures r.Success? ==> r.value == b
  {
    var errors :=
      EmailChain(b.email, isEmail, "Email is required", "Invalid email")
      + (if ValidatorLength(b.newPassword) < 6 then ["Password must be at least 6 characters"] else []);
    Outcome(errors, b)
  }

  /** A string of decimal digits is numeric in `isNumeric`'s sense. */
  lemma DigitsAreNumeric(s: string)
    requires s != "" && AllDigits(s)
    ensures IsNumeric(s)
  {
  }

  /** Every code a handler issues passes both code chains, whichever way it is submitted. */
  lemma IssuedCodePassesCodeValidators(email: string, draw: real, isEmail: string -> bool)
    requires 0.0 <= draw < 1.0
    requires email != "" && Trimmed(email) && isEmail(email)
    ensures var code := IssueCode(draw);
            && VerifyEmailValidator(CodeBody(email, code), isEmail) == Success(CodeBody(email, code))
            && VerifyResetValidator(CodeBody(email, code), isEmail) == Success(CodeBody(email, code))
  {
    var code := IssueCode(draw);
    DigitsAreNumeric(code);
    TrimmedFixpoint(email);
    TrimmedFixpoint(code);
  }

  /** A code typed with a leading space passes the verify-email chain, which trims it away, and
      fails the verify-reset chain, which does not. */
  lemma PaddedCodeSplitsValidators(email: string, code: string, isEmail: string -> bool)
    requires IsSixDigitCode(code)
    requires email != "" && Trimmed(email) && isEmail(email)
    ensures VerifyEmailValidator(CodeBody(email, " " + code), isEmail) == Success(CodeBody(email, code))
    ensures VerifyResetValidator(CodeBody(email, " " + code), isEmail).Failure?
  {
    var padded := " " + code;
    assert padded[1..] == code;
    assert SkipForward(padded, 1) == 1;
    assert SkipForward(padded, 0) == 1;
    assert SkipBackward(padded, |padded|) == |padded|;
    assert Trim(padded) == code;
    TrimmedFixpoint(email);
    DigitsAreNumeric(code);
  }

  /** `isNumeric` admits a sign and a decimal point. */
  lemma SignAndPointAreNumeric()
    ensures IsNumeric("+12345") && IsNumeric("12.345")
  {
    var plus, point := "+12345", "12.345";
    assert plus[1..] == "12345";
    assert point[..2] == "12" && point[3..] == "345";
    assert point[2] == '.';
  }

  /** Both strings are six characters long and neither is a six-digit code. */
  lemma SignAndPointLengths()
    ensures ValidatorLength("+12345") == 6 && ValidatorLength("12.345") == 6
    ensures !IsSixDigitCode("+12345") && !IsSixDigitCode("12.345")
  {
    var plus, point := "+12345", "12.345";
    assert !IsDigit(plus[0]) && !IsDigit(point[2]);
  }

  /** So the code chains accept six-character strings that are not six-digit codes, and that
      therefore never match an issued one. */
  lemma NumericAdmitsUnissuableCodes(email: string, isEmail: string -> bool)
    requires email != "" && isEmail(email)
    ensures VerifyResetValidator(CodeBody(email, "+12345"), isEmail).Success?
    ensures VerifyResetValidator(CodeBody(email, "12.345"), isEmail).Success?
    ensures !IsSixDigitCode("+12345") && !IsSixDigitCode("12.345")
  {
    SignAndPointAreNumeric();
    SignAndPointLengths();
  }

  /** Login puts no bound on the password's length: a one-character password gets through the
      login chain though signup and reset never let one be set. */
  lemma LoginHasNoLengthBound(email: string, isEmail: string -> bool)
    requires Trim(email) != "" && isEmail(Trim(email))
    ensures LoginValidator(LoginBody(email, "a"), isEmail).Success?
    ensures forall b: SignupBody | b.password == "a" :: SignupValidator(b, isEmail).Failure?
    ensures ResetPasswordValidator(ResetBody(email, "a"), isEmail).Failure?
  {
    assert ValidatorLength("a") == 1;
  }

  /** "ab " counts three characters for the chain and two once trimmed. */
  lemma PaddedNameLengths()
    ensures ValidatorLength("ab ") == 3 && Utf16Length(Trim("ab ")) == 2
  {
    var padded := "ab ";
    assert SkipForward(padded, 0) == 0 && SkipBackward(padded, 3) == 2;
    assert Trim(padded) == "ab";
  }

  /** The name chains measure the untrimmed names, the schema the trimmed ones: a name padded up to
      three characters passes signup's chains and then fails the schema's check on save. */
  lemma PaddedNamePassesChainsFailsSchema(email: string, isEmail: string -> bool, id: nat, hashed: Hashed, now: int)
    requires Trim(email) != "" && isEmail(Trim(email))
    ensures var b := SignupBody(email, "secret", FullName("ab ", "abc"));
            && SignupValidator(b, isEmail).Success?
            && !WellFormed(NewAccount(id, Trim(email), b.fullname, hashed, now))
  {
    PaddedNameLengths();
    assert ValidatorLength("abc") == 3 && ValidatorLength("secret") == 6;
    NewAccountWellFormed(id, Trim(email), FullName("ab ", "abc"), hashed, now);
  }

  /** A request that passed its chains never meets the handlers' missing-field check: every field
      the handler tests for emptiness is non-empty in the sanitised body. */
  lemma ValidatedFieldsPresent(b: CodeBody, email: string, r: ResetBody, isEmail: string -> bool)
    ensures var v := VerifyEmailValidator(b, isEmail); v.Success? ==> v.value.email != "" && v.value.code != ""
    ensures var v := VerifyResetValidator(b, isEmail); v.Success? ==> v.value.email != "" && v.value.code != ""
    ensures var v := ResendOtpValidator(email, isEmail); v.Success? ==> v.value != ""
    ensures var v := RequestResetValidator(email, isEmail); v.Success? ==> v.value != ""
    ensures var v := ResetPasswordValidator(r, isEmail); v.Success? ==> v.value.email != "" && v.value.newPassword != ""
  {
  }

  /** Trimming a field before the handler normalises it does not change which account the
      handler looks up. */
  lemma TrimBeforeNormalize(e: string)
    ensures NormalizeEmail(Trim(e)) == NormalizeEmail(e)
  {
    calc {
      NormalizeEmail(Trim(e));
      Trim(ToLower(Trim(e)));
      { TrimToLowerCommute(Trim(e)); }
      ToLower(Trim(Trim(e)));
      { TrimIdempotent(e); }
      ToLower(Trim(e));
      { TrimToLowerCommute(e); }
      NormalizeEmail(e);
    }
  }
}
