/** The `User` document: its fields, the setters Mongoose applies to them (lower-casing and
    trimming), the defaults of a new document, the checks run on save, and the `select: false`
    projection of the password. */
module UserModel {
  import opened Wrappers
  import opened Text
  import opened PasswordHasher

  const MinPasswordLength: nat := 6
  const MinNameLength: nat := 3

  datatype FullName = FullName(firstName: string, lastName: string)

  /** The `status` enum. */
  datatype Presence = Online | Offline | Typing

  /** One account. Times are milliseconds since the epoch; `None` is an unset optional path.
      `password` is `None` only in a document read by a query that did not select it. */
  datatype Account = Account(
    id: nat,
    email: string,
    password: Option<Hashed>,
    fullname: FullName,
    avatar: string,
    status: Presence,
    lastSeen: int,
    isVerified: bool,
    verificationCode: Option<string>,
    verificationCodeExpires: Option<int>,
    lastOtpRequestAt: Option<int>,
    resetCode: Option<string>,
    resetCodeExpires: Option<int>,
    canResetPassword: bool,
    lastPasswordResetRequestAt: Option<int>,
    createdAt: int,
    updatedAt: int)

  function StatusName(p: Presence): (name: string) {
    match p
    case Online => "online"
    case Offline => "offline"
    case Typing => "typing"
  }

  /** The enum check on `status`: only the three listed strings are accepted. */
  function ParseStatus(s: string): (p: Option<Presence>)
    ensures p.Some? ==> StatusName(p.value) == s
    ensures p.None? ==> s != "online" && s != "offline" && s != "typing"
  {
    if s == "online" then Some(Online)
    else if s == "offline" then Some(Offline)
    else if s == "typing" then Some(Typing)
    else None
  }

  lemma StatusRoundTrip(p: Presence)
    ensures ParseStatus(StatusName(p)) == Some(p)
  {
  }

  /** The `lowercase` and `trim` setters of the email path. Mongoose runs them on save and on the
      email of a query filter, so a lookup by email finds the stored form. */
  function NormalizeEmail(s: string): (e: string)
    ensures e == "" <==> AllWhitespace(s)
    ensures IsNormalEmail(e)
  {
    assert AllWhitespace(ToLower(s)) <==> AllWhitespace(s) by {
      assert forall i | 0 <= i < |s| :: ToLower(s)[i] == LowerChar(s[i]);
    }
    TrimNoUpper(ToLower(s));
    Trim(ToLower(s))
  }

  /** The form both setters leave an email in: trimmed, with no upper-case letter. */
  predicate IsNormalEmail(e: string) {
    Trimmed(e) && NoUpper(e)
  }

  /** The emails in normal form are exactly those normalisation leaves unchanged. */
  lemma NormalEmailFixpoint(e: string)
    ensures IsNormalEmail(e) <==> NormalizeEmail(e) == e
  {
    TrimmedFixpoint(e);
  }

  /** A stored email is already in normal form. */
  lemma NormalizeEmailIdempotent(s: string)
    ensures NormalizeEmail(NormalizeEmail(s)) == NormalizeEmail(s)
  {
    var t := NormalizeEmail(s);
    calc {
      Trim(ToLower(t));
      { TrimToLowerCommute(t); }
      ToLower(Trim(Trim(ToLower(s))));
      { TrimIdempotent(ToLower(s)); }
      ToLower(Trim(ToLower(s)));
      { TrimToLowerCommute(ToLower(s)); }
      Trim(ToLower(ToLower(s)));
      { ToLowerIdempotent(s); }
      t;
    }
  }

  /** The stored key ignores case: two emails that agree once lower-cased are the same account. */
  lemma {:induction false} CaseInsensitiveKey(s: string, t: string)
    requires |s| == |t| && forall i | 0 <= i < |s| :: LowerChar(s[i]) == LowerChar(t[i])
    ensures NormalizeEmail(s) == NormalizeEmail(t)
  {
    assert ToLower(s) == ToLower(t);
  }

  /** For instance an accented capital and its lower case give one key. */
  lemma AccentedCapitalFolds()
    ensures NormalizeEmail("\U{00C9}@x.fr") == NormalizeEmail("\U{00E9}@x.fr")
  {
    CaseInsensitiveKey("\U{00C9}@x.fr", "\U{00E9}@x.fr");
  }

  /** The schema's constraints on a saved document: email required and normalised, password
      required, both names required, trimmed and at least three characters long (`minlength` counts UTF-16 code units). */
  predicate WellFormed(a: Account) {
    && a.email != "" && IsNormalEmail(a.email)
    && a.password.Some?
    && Trimmed(a.fullname.firstName) && Utf16Length(a.fullname.firstName) >= MinNameLength
    && Trimmed(a.fullname.lastName) && Utf16Length(a.fullname.lastName) >= MinNameLength
  }

  /** The schema defaults of a fresh document. */
  predicate HasDefaults(a: Account) {
    && a.avatar == "" && a.status == Offline
    && !a.isVerified && !a.canResetPassword
    && a.verificationCode.None? && a.verificationCodeExpires.None? && a.lastOtpRequestAt.None?
    && a.resetCode.None? && a.resetCodeExpires.None? && a.lastPasswordResetRequestAt.None?
  }

  /** `new User({ email, fullname, password })` at time `now`: setters applied, defaults filled in,
      `lastSeen` and both timestamps set to `now`. */
  function NewAccount(id: nat, email: string, fullname: FullName, password: Hashed, now: int): (a: Account)
    ensures HasDefaults(a)
    ensures a.id == id && a.email == NormalizeEmail(email) && a.password == Some(password)
    ensures a.fullname == FullName(Trim(fullname.firstName), Trim(fullname.lastName))
    ensures a.lastSeen == now && a.createdAt == now && a.updatedAt == now
  {
    Account(
      id := id,
      email := NormalizeEmail(email),
      password := Some(password),
      fullname := FullName(Trim(fullname.firstName), Trim(fullname.lastName)),
      avatar := "",
      status := Offline,
      lastSeen := now,
      isVerified := false,
      verificationCode := None,
      verificationCodeExpires := None,
      lastOtpRequestAt := None,
      resetCode := None,
      resetCodeExpires := None,
      canResetPassword := false,
      lastPasswordResetRequestAt := None,
      createdAt := now,
      updatedAt := now)
  }

  /** Saving a new document succeeds exactly when the email is not blank and both trimmed names
      have at least three characters. */
  lemma NewAccountWellFormed(id: nat, email: string, fullname: FullName, password: Hashed, now: int)
    ensures var a := NewAccount(id, email, fullname, password, now);
            WellFormed(a) <==>
              && !AllWhitespace(email)
              && Utf16Length(Trim(fullname.firstName)) >= MinNameLength
              && Utf16Length(Trim(fullname.lastName)) >= MinNameLength
  {
  }

  /** A document as a query returns it: the password is left out unless the query selects it. */
  function Selected(a: Account, withPassword: bool): (d: Account)
    ensures d.password.Some? <==> withPassword && a.password.Some?
    ensures d.(password := a.password) == a
  {
    if withPassword then a else a.(password := None)
  }
}
