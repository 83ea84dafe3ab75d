# Credential core of chat_app, modelled in Dafny

This project models how the chat_app server and client handle accounts and credentials.

- **Signup and email verification.** Signup creates an account holding a six-digit verification code. The code expires after ten minutes. Resending a new code is throttled to once a minute.
- **Login and logout.** Login sets a session cookie carrying a JSON Web Token (RFC 7519). Logout clears it.
- **Password reset.** Three steps: request a code, verify the code, which opens a "reset gate", then set a new password, which closes the gate again.
- **Route guard.** The guard in front of authenticated routes checks the session token.
- **Request validators.** A chain of validators runs in front of every handler.
- **Client pages.** The client-side form checks of the signup, login, forgotten-password and new-password pages.
- **Code input.** The one-time-code input component.

The server side is modelled as follows:

- The user collection is the class `AuthController.UserStore`. It is a map from the normalised email to the account, plus the next fresh id.
- Each handler is a method on the store. Its `ensures` clauses give the reply and the new map in every branch: the missing-field check, the unknown account, each guard in order, and success.
- Every handler keeps the store invariant `StoreInvariant`:
  - each account is filed under its own email;
  - each account passes the schema's checks;
  - the ids are unique;
  - the code fields are consistent: a code and its expiry come and go together, stored codes have six digits, a verified account holds no verification code, and an open reset gate holds no reset code.
- The successful field updates are pure functions (`EmailVerified`, `CodeRotated`, `ResetIssued`, `ResetVerified`, `PasswordReplaced`). The one-step and end-to-end properties are lemmas about those functions.

The client side is modelled as follows:

- Each page's `validateForm` is a function that returns what the call returns, the toast it raises and the password error it sets.
- The rule loop of the signup and login pages is the method `FormRules.ScanRules`, proved against `FirstFailingIndex`.
- The code input is the class `OtpInput.OtpInputState`. Its fields are the slots, the code last reported to the parent, and the status.

Several parameters stand in for things the model does not compute:

- the clock (`now`, in milliseconds);
- the `Math.random()` draw;
- the bcrypt salt;
- the JWT environment;
- `jwt.verify`;
- validator.js `isEmail`;
- the id that `toast.error` returns.

JavaScript details are written out:

- `String.prototype.length` counts UTF-16 code units (`Text.Utf16Length`).
- validator.js `isLength` counts code points, skipping the presentation selectors U+FE0E and U+FE0F (`AuthValidator.ValidatorLength`).
- `isNumeric` follows its pattern `^[+-]?([0-9]*[.])?[0-9]+$`.
- `isNaN` on a string follows the `StringToNumber` grammar of ECMAScript.
- A truthy return value is decided by `FormRules.Truthy`.
- Mongoose's `lowercase` and `trim` setters apply to saved documents and to query filters.
- A document being saved fails when a trimmed name is shorter than its `minlength`.

Behaviour the model makes explicit:

- The code-expiry test is `now > expires`, so a code is still accepted at the instant it expires (`AuthController.CodeExpired`).
- The first resend is never throttled, because no request time is stored until one is made (`AuthController.CooldownWait`).
- A password-reset request has no cooldown at all.
- A new reset request closes a gate that was open (`AuthController.NewResetRequestSupersedes`).
- The closed-gate reply is a 400 like the other failed code checks, not a 401 (`AuthController.StatusOf`).
- `jwt.verify` throwing is caught and answered with 500, not 401 (`AuthMiddleware.GuardOutcome`).
- The last-name length message of the signup chain reads "First name must be 3 Character", as in the source.
- The chains measure names before trimming, while the schema measures them after. A name padded up to three characters therefore passes the chains and then fails on save with a 500 (`AuthValidator.PaddedNamePassesChainsFailsSchema`).
- The verify-email chain trims the code but the verify-reset chain does not (`AuthValidator.PaddedCodeSplitsValidators`).
- `isNumeric` admits a sign or a decimal point (`AuthValidator.NumericAdmitsUnissuableCodes`).
- Login accepts a password of any length (`AuthValidator.LoginHasNoLengthBound`).
- Backspace in the code input clears a slot without reporting to the parent. The change event that follows a deletion reports the emptied slot (`OtpInput.EmptyTextClearsSlot`).
- Characters other than digits can enter a slot, because `isNaN` lets them through: a space, a decimal point and `Infinity` (`OtpInput.SpaceEntersSlot`, `OtpInput.TrailingPointEntersSlot`, `OtpInput.InfinityEntersSlot`).

## Model

| member | source | states |
|---|---|---|
| Text.Trim | backend/src/validators/auth.validator.js:7 | the result is blank exactly when the input is all white space; it has no white space at either end, is no longer than the input, and is the slice between the first and last non-blank characters |
| Text.TrimmedFixpoint | backend/src/Models/user.model.js:25 | a string is left unchanged by trimming exactly when it has no white space at either end |
| Text.TrimIdempotent | backend/src/Models/user.model.js:10 | trimming twice gives the same as trimming once |
| Text.LowerChar | backend/src/Models/user.model.js:9 | the lower case of one character: no capital of the modelled alphabets is left, white space stays white space, and every other character is unchanged |
| Text.ToLower | backend/src/Models/user.model.js:9 | `toLowerCase` on the Latin, Greek and Cyrillic capitals it covers: it leaves none of them and lowers each character on its own, so the length is kept (see Left out for the letters it does not cover) |
| Text.ToLowerFixpoint | backend/src/Models/user.model.js:9 | a string without upper-case letters is left unchanged |
| Text.TrimNoUpper | backend/src/Models/user.model.js:9-10 | trimming a string without upper-case letters leaves none |
| Text.ToLowerIdempotent | backend/src/Models/user.model.js:9 | lower-casing twice gives the same as lower-casing once |
| Text.TrimToLowerCommute | backend/src/Models/user.model.js:9-10 | trimming then lower-casing gives the same as lower-casing then trimming, so the order of the two setters does not matter |
| Text.UnsignedNumeral | backend/src/validators/auth.validator.js:45 | definition: the pattern `([0-9]*[.])?[0-9]+`, digits with at most one point and at least one digit after it |
| Text.Utf16Length | client/src/pages/SignupPage.jsx:31 | `.length` is between the number of characters and twice that, and equals it for text inside the Basic Multilingual Plane |
| Text.DecimalString | backend/src/Controller/auth.controller.js:24 | `toString()` of a non-negative integer is a non-empty run of digits with a leading zero only for 0 |
| Text.DecimalRoundTrip | backend/src/Controller/auth.controller.js:24 | reading the decimal string back gives the integer |
| Text.DecimalLength | backend/src/Controller/auth.controller.js:24 | an integer in [10^k, 10^(k+1)) prints with k+1 digits |
| CodeGenerator.DrawCode | backend/src/Controller/auth.controller.js:24 | every draw in [0, 1) gives an integer from 100000 to 999999 |
| CodeGenerator.DrawCodeCoversRange | backend/src/Controller/auth.controller.js:24 | every integer from 100000 to 999999 is drawn by some value in [0, 1) |
| CodeGenerator.IssueCode | backend/src/Controller/auth.controller.js:130 | an issued code has exactly six digits, does not start with 0 and denotes the drawn integer |
| CodeGenerator.IssueCodeInjective | backend/src/Controller/auth.controller.js:210 | two draws give the same code exactly when they give the same integer |
| PasswordHasher.Digest | backend/src/Controller/auth.controller.js:22 | definition of the stand-in digest: one entry per character, each fixed by that character and the salt (its ensures is the closed form of the recursion) |
| PasswordHasher.Hash | backend/src/Controller/auth.controller.js:296-297 | a hash records the salt it was made with |
| PasswordHasher.CompareHash | backend/src/Controller/auth.controller.js:170 | `compare` succeeds for the password that was hashed and for no other |
| UserModel.ParseStatus | backend/src/Models/user.model.js:38-42 | the status enum accepts exactly "online", "offline" and "typing" |
| UserModel.StatusRoundTrip | backend/src/Models/user.model.js:40 | every status reads back from its name |
| UserModel.CaseInsensitiveKey | backend/src/Models/user.model.js:9 | two emails that agree once lower-cased give the same key, so they are one account |
| UserModel.AccentedCapitalFolds | backend/src/Models/user.model.js:9 | "\U{00C9}@x.fr" and "\U{00E9}@x.fr" give the same key |
| UserModel.WellFormed | backend/src/Models/user.model.js:5-32 | definition of the schema's checks on save: a non-blank normalised email, a password, and trimmed names of at least three UTF-16 code units |
| UserModel.NormalizeEmail | backend/src/Models/user.model.js:5-11 | the stored email is blank exactly when the input is all white space, and is trimmed with no upper-case letter |
| UserModel.NormalEmailFixpoint | backend/src/Models/user.model.js:9-10 | an email is in normal form exactly when the setters leave it unchanged |
| UserModel.NormalizeEmailIdempotent | backend/src/Models/user.model.js:9-10 | normalising a stored email changes nothing, so a lookup finds it |
| UserModel.NewAccount | backend/src/Models/user.model.js:34-76 | a new document gets the defaults (empty avatar, offline, unverified, gate closed, no codes), a normalised email, trimmed names and `now` for lastSeen and both timestamps |
| UserModel.NewAccountWellFormed | backend/src/Models/user.model.js:20-32 | a new document passes the schema exactly when the email is not blank and both trimmed names have at least three characters |
| UserModel.Selected | backend/src/Models/user.model.js:17 | a query returns the password only when it selects it, and every other field as stored |
| SessionToken.SessionCookieOptions | backend/src/lib/utils.js:14-19 | the session cookie is httpOnly and SameSite=Lax, secure unless NODE_ENV is "development", and lives 604800000 ms whatever JWT_EXPIRE says |
| SessionToken.EnvReady | backend/src/lib/utils.js:4-6 | definition: both JWT variables are set (non-empty) |
| SessionToken.IsTimespan | backend/src/lib/utils.js:11 | definition: the `expiresIn` texts `jwt.sign` can turn into an expiry, at most 100 code units of an optionally negative amount, spaces and a unit |
| SessionToken.Signable | backend/src/lib/utils.js:4-11 | definition: the environment check passes and JWT_EXPIRE is a timespan |
| SessionToken.AmountWithUnit | backend/src/lib/utils.js:11 | a number followed by spaces and a unit, short enough, is a timespan |
| SessionToken.SevenDaysIsTimespan | backend/src/lib/utils.js:11 | "7d" is a timespan |
| SessionToken.WordIsNotTimespan | backend/src/lib/utils.js:4-11 | "abc" passes the environment check but is not a timespan, so signing with it throws |
| SessionToken.SignToken | backend/src/lib/utils.js:4-12 | signing throws when a JWT variable is unset, when JWT_EXPIRE is not a timespan, or when the email slot holds something that cannot be serialised, checked in that order; otherwise the payload is {userId, email} and the lifetime is JWT_EXPIRE |
| SessionToken.Response.SetCookie | backend/src/lib/utils.js:21 | `res.cookie` sets that one cookie and leaves the others |
| SessionToken.GenerateToken | backend/src/lib/utils.js:3-24 | succeeds exactly with a signable environment, a string email and a response, returning the signed token and setting the `token` cookie with the session options; on failure no cookie changes |
| AuthController.StatusOf | backend/src/Controller/auth.controller.js:293 | 404 exactly for an unknown account, 429 for the throttle, 401 for bad credentials or no session, 500 for server errors, 400 for every other failure including the closed reset gate |
| AuthController.TokenReply | backend/src/Controller/auth.controller.js:89 | definition: a handler ending in `generateToken` replies 200 with the token, or 500 when the call throws |
| AuthController.CodeExpired | backend/src/Controller/auth.controller.js:74 | definition of both expiry tests (:74, :251): no expiry stored, or `now` strictly after it |
| AuthController.CeilSeconds | backend/src/Controller/auth.controller.js:126 | `Math.ceil(ms / 1000)`: the smallest whole number of seconds covering the milliseconds |
| AuthController.CooldownWait | backend/src/Controller/auth.controller.js:123-128 | a resend is throttled exactly when an earlier one was less than a minute ago; the wait covers the rest of the minute and is 1 to 60 seconds |
| AuthController.VerifyEmailCheck | backend/src/Controller/auth.controller.js:71-77 | the checks in source order: already verified, then expired, then a wrong code; the code passes exactly when unverified, unexpired and equal to the stored code |
| AuthController.ResetCodeCheck | backend/src/Controller/auth.controller.js:251-254 | expired first, then a wrong code; the code passes exactly when unexpired and equal to the stored reset code |
| AuthController.SignupAccount | backend/src/Controller/auth.controller.js:26-36 | the saved account is unverified, with the code expiring ten minutes later, no resend throttle, a closed gate and consistent codes |
| AuthController.EmailVerified | backend/src/Controller/auth.controller.js:81-85 | marking verified and clearing the code keeps the codes consistent, the gate and the schema's checks |
| AuthController.CodeRotated | backend/src/Controller/auth.controller.js:130-135 | a resend keeps the codes consistent, the gate and the schema's checks |
| AuthController.ResetIssued | backend/src/Controller/auth.controller.js:210-216 | a reset request keeps the codes consistent and the schema's checks, and leaves the gate in the code-requested state |
| AuthController.ResetVerified | backend/src/Controller/auth.controller.js:258-262 | a verified reset code opens the gate and keeps the codes consistent |
| AuthController.PasswordReplaced | backend/src/Controller/auth.controller.js:300-307 | a new password closes the gate and keeps the codes consistent |
| AuthController.ReplaceKeepsInvariant | backend/src/Controller/auth.controller.js:85 | saving an account over itself with the same id and email keeps the store invariant |
| AuthController.InsertKeepsInvariant | backend/src/Controller/auth.controller.js:39 | saving a new account under a fresh email with a fresh id keeps the store invariant |
| AuthController.UserStore.constructor | backend/src/Models/user.model.js:79 | the empty collection satisfies the invariant |
| AuthController.UserStore.Save | backend/src/Controller/auth.controller.js:85 | `save()` replaces the stored document with the loaded one and keeps the store invariant when the document passes the schema and keeps its codes consistent |
| AuthController.UserStore.FindById | backend/src/Middleware/auth.middleware.js:15 | finds the account with that id, without its password, or none when no account has it |
| AuthController.UserStore.SignupUser | backend/src/Controller/auth.controller.js:9-53 | 400 for a registered email; otherwise the new account is inserted with 201, or nothing is saved and 500 is replied when the document fails the schema; the invariant holds |
| AuthController.UserStore.VerifyEmail | backend/src/Controller/auth.controller.js:55-110 | 400 for a missing field, 404 for an unknown email, the first failing check's error with nothing changed, or the account verified with the token reply and cookie |
| AuthController.UserStore.ResendVerificationCode | backend/src/Controller/auth.controller.js:112-154 | missing field, unknown email, already verified, 429 with the wait, or a fresh code with a new expiry and request time |
| AuthController.UserStore.LoginUser | backend/src/Controller/auth.controller.js:156-195 | the same 401 exactly for an unknown email or a wrong password; otherwise the token reply and cookie; the store is unchanged |
| AuthController.UserStore.RequestPasswordReset | backend/src/Controller/auth.controller.js:197-234 | missing field, unknown email, or a fresh reset code valid ten minutes that closes the gate |
| AuthController.UserStore.VerifyResetCode | backend/src/Controller/auth.controller.js:236-276 | missing field, unknown email, the first failing check's error with nothing changed, or the gate opened and the code cleared |
| AuthController.UserStore.ResetPassword | backend/src/Controller/auth.controller.js:278-327 | missing field, unknown email, 400 while the gate is closed, or the new hash saved with the gate closed, then a token for the account's id and email |
| AuthController.LogoutUser | backend/src/Controller/auth.controller.js:399-407 | replies 200 and overwrites the `token` cookie with an empty one that expires at once |
| AuthController.CheckAuthStatus | backend/src/Controller/auth.controller.js:409-432 | succeeds with the attached account exactly when the guard attached one, otherwise 401 |
| AuthController.VerifyEmailNoReplay | backend/src/Controller/auth.controller.js:71-83 | after a successful verification, any further attempt is refused as already verified |
| AuthController.ResetCodeNoReplay | backend/src/Controller/auth.controller.js:251-261 | after a reset code was accepted, any code is refused as expired |
| AuthController.IssuedVerificationCodeAccepted | backend/src/Controller/auth.controller.js:74-77 | within ten minutes of a resend exactly the new code is accepted |
| AuthController.ResendSupersedes | backend/src/Controller/auth.controller.js:130-133 | a resend makes the previous code invalid unless the draw repeats it |
| AuthController.ResetCodeRoundTrip | backend/src/Controller/auth.controller.js:210-212 | a stored reset code is accepted exactly while its ten minutes last |
| AuthController.NewResetRequestSupersedes | backend/src/Controller/auth.controller.js:210-214 | a new request makes the old reset code invalid and closes an open gate |
| AuthController.ResendThrottled | backend/src/Controller/auth.controller.js:123-133 | within a minute of a resend every further resend is refused with a wait of 1 to 60 seconds |
| AuthController.LoginAfterReset | backend/src/Controller/auth.controller.js:296-300 | after a reset the account accepts the new password and no other |
| AuthController.StrictModeSave | backend/src/Models/user.model.js:62-74 | saving drops the undeclared `resetCode` and keeps every other field |
| AuthController.StrictModeRejectsEveryResetCode | backend/src/Controller/auth.controller.js:211 | as written, every reset code is refused, the mailed one included: as invalid within ten minutes, as expired after |
| AuthController.UserStore.ResetPasswordAsWritten | backend/src/Controller/auth.controller.js:278-327 | as written, through an open gate the new hash is saved and the gate closed, and then the token call throws: the reply is 500 and no cookie is set, whatever the environment; the other branches are those of `ResetPassword` |
| AuthController.SignupThenVerify | backend/src/Controller/auth.controller.js:24-85 | after signup a wrong code is refused, the mailed code is accepted within ten minutes, and then the same code is refused |
| AuthController.ResetThenLogin | backend/src/Controller/auth.controller.js:210-305 | the three reset steps move the gate from code-requested to verified to closed; the code then no longer works and only the new password does |
| AuthMiddleware.Request.constructor | backend/src/Middleware/auth.middleware.js:7 | a request starts with its cookie, no attached user and no `next()` call |
| AuthMiddleware.HasToken | backend/src/Middleware/auth.middleware.js:9 | definition of `!token` negated: a cookie that is present and not empty |
| AuthMiddleware.GuardOutcome | backend/src/Middleware/auth.middleware.js:5-26 | 401 exactly for no token or a falsy decode, 500 exactly when verifying throws, 404 exactly for an unknown id, and `next()` exactly for a known one |
| AuthMiddleware.ProtectedRoute | backend/src/Middleware/auth.middleware.js:5-26 | replies as `GuardOutcome`; on `next()` the request carries the account without its password and `next()` was called once; otherwise the request is unchanged |
| AuthMiddleware.GuardedRequestIsAuthorised | backend/src/Controller/auth.controller.js:409-423 | a request that passed the guard gets its own account back from the status check |
| FormRules.FirstFailingIndex | client/src/pages/SignupPage.jsx:43-45 | none exactly when no rule fails; otherwise a failing rule with every earlier one passing |
| FormRules.ScanRules | client/src/pages/LoginPage.jsx:32-34 | the loop stops at the first failing rule, or finds none |
| FormRules.FirstFailingIndexIs | client/src/pages/SignupPage.jsx:43-45 | a failing rule preceded only by passing rules is the first failing one |
| FormRules.FirstFailureMessage | client/src/pages/SignupPage.jsx:44 | no message exactly when every rule passes; otherwise the message of a failing rule with every earlier one passing |
| FormRules.FailureMessages | backend/src/validators/auth.validator.js:5-22 | no messages exactly when every rule passes; every failing rule's message is recorded and every recorded message comes from a failing rule |
| EmailShape.ContainsLooseEmail | client/src/pages/SignupPage.jsx:37 | definition of `/\S+@\S+\.\S+/.test`: some `@` with a non-blank character before it, a `.` later with only non-blank characters between, and a non-blank character after it |
| EmailShape.MatchesStrictEmail | client/src/pages/ForgetPassword.jsx:28 | definition of `/^[^\s@]+@[^\s@]+\.[^\s@]+$/.test`: a non-empty part, one `@`, then a part with a `.` not at either end, neither part holding `@` or white space |
| EmailShape.StrictEmailShape | client/src/pages/ForgetPassword.jsx:28 | a string the anchored pattern accepts has no white space and exactly one `@` |
| EmailShape.StrictImpliesLoose | client/src/pages/ForgetPassword.jsx:28 | whatever the anchored pattern accepts, the unanchored signup/login pattern accepts |
| EmailShape.LooseAcceptsSpaces | client/src/pages/SignupPage.jsx:37 | the unanchored pattern accepts "a b@c.d", which the anchored one refuses |
| EmailShape.LooseEmailNotBlank | client/src/pages/LoginPage.jsx:25-26 | a string the unanchored pattern accepts is not blank, so the blank-email rule never fires after it |
| AuthValidator.ValidatorLength | backend/src/validators/auth.validator.js:13 | `isLength` counts at most one per character, exactly one when there are no presentation selectors |
| AuthValidator.IsNumeric | backend/src/validators/auth.validator.js:45 | definition of `isNumeric`: `^[+-]?([0-9]*[.])?[0-9]+$` |
| AuthValidator.Outcome | backend/src/Routes/auth.routes.js:9-12 | definition: the request reaches the handler exactly when no message was recorded, with the sanitised body; otherwise the messages are the reply |
| AuthValidator.EmailChain | backend/src/validators/auth.validator.js:6-9 | the email chain records nothing exactly when the value is non-empty and in email format |
| AuthValidator.MinLengthChain | backend/src/validators/auth.validator.js:11-13 | a length chain records nothing exactly when the value reaches the minimum |
| AuthValidator.CodeChain | backend/src/validators/auth.validator.js:41-45 | the code chain records nothing exactly when the code is six characters long and numeric |
| AuthValidator.SignupValidator | backend/src/validators/auth.validator.js:5-22 | passes exactly for a non-blank trimmed email in email format, a password of at least six characters and names of at least three; the handler gets the trimmed email |
| AuthValidator.LoginValidator | backend/src/validators/auth.validator.js:25-33 | passes exactly for a non-blank trimmed email in email format and a non-empty password |
| AuthValidator.VerifyEmailValidator | backend/src/validators/auth.validator.js:35-46 | passes exactly for a valid trimmed email and a trimmed code of six characters that is numeric; the handler gets both trimmed |
| AuthValidator.ResendOtpValidator | backend/src/validators/auth.validator.js:47-53 | passes exactly for a non-blank trimmed email in email format, handed on trimmed |
| AuthValidator.RequestResetValidator | backend/src/validators/auth.validator.js:55-59 | passes exactly for a non-empty email in email format, handed on untrimmed |
| AuthValidator.VerifyResetValidator | backend/src/validators/auth.validator.js:60-69 | passes exactly for a valid email and a six-character numeric code, with nothing trimmed |
| AuthValidator.ResetPasswordValidator | backend/src/validators/auth.validator.js:70-77 | passes exactly for a valid email and a new password of at least six characters |
| AuthValidator.DigitsAreNumeric | backend/src/validators/auth.validator.js:45 | a non-empty run of digits is numeric |
| AuthValidator.IssuedCodePassesCodeValidators | backend/src/validators/auth.validator.js:41-68 | every issued code passes both code chains unchanged |
| AuthValidator.PaddedCodeSplitsValidators | backend/src/validators/auth.validator.js:41-68 | a code with a leading space passes the verify-email chain, which trims it, and fails the verify-reset chain |
| AuthValidator.SignAndPointAreNumeric | backend/src/validators/auth.validator.js:68 | example computation for NumericAdmitsUnissuableCodes: "+12345" and "12.345" are numeric |
| AuthValidator.SignAndPointLengths | backend/src/validators/auth.validator.js:67 | example computation for NumericAdmitsUnissuableCodes: both have length six and neither is a six-digit code |
| AuthValidator.NumericAdmitsUnissuableCodes | backend/src/validators/auth.validator.js:65-68 | the reset-code chain accepts codes that no handler ever issues |
| AuthValidator.LoginHasNoLengthBound | backend/src/validators/auth.validator.js:31-32 | a one-character password passes login and fails signup and reset |
| AuthValidator.PaddedNameLengths | backend/src/validators/auth.validator.js:17 | example computation for PaddedNamePassesChainsFailsSchema: "ab " counts three for the chain and two once trimmed |
| AuthValidator.PaddedNamePassesChainsFailsSchema | backend/src/validators/auth.validator.js:15-21 | a first name padded to three characters passes signup's chains and then fails the schema on save |
| AuthValidator.ValidatedFieldsPresent | backend/src/Controller/auth.controller.js:59 | after the chains pass, none of the handlers' missing-field checks can fire |
| AuthValidator.TrimBeforeNormalize | backend/src/validators/auth.validator.js:7 | trimming before the handler does not change which account is looked up |
| SignupPage.Rules | client/src/pages/SignupPage.jsx:29-41 | definition: the eight rules in table order with their messages, lengths in UTF-16 code units |
| SignupPage.RulesPassExactly | client/src/pages/SignupPage.jsx:29-41 | every rule passes exactly when both names have three characters, the email has the x@y.z shape and the password has six characters |
| SignupPage.Validate | client/src/pages/SignupPage.jsx:25-53 | reports the first failing rule with the toast id as the value; otherwise false with the mismatch error, or true with the error cleared |
| SignupPage.ValidateForm | client/src/pages/SignupPage.jsx:25-53 | the loop over the rule table followed by the confirm check computes `Validate` |
| SignupPage.ShortFirstNameReportedFirst | client/src/pages/SignupPage.jsx:30-31 | a short first name is reported first, and the password error is left alone |
| SignupPage.SubmitsAfterFailedRule | client/src/pages/SignupPage.jsx:58-59 | as written the page submits exactly when a rule fails or the passwords match |
| SignupPage.EmptyFormSubmits | client/src/pages/SignupPage.jsx:44 | the empty form raises "First Name is required" and is submitted |
| SignupPage.ValidateCorrected | client/src/pages/SignupPage.jsx:44 | the same toast and password error, and false whenever a rule fails |
| SignupPage.CorrectedSubmitsExactlyAccepted | client/src/pages/SignupPage.jsx:43-59 | with the correction the page submits exactly the forms whose rules all pass and whose passwords match |
| LoginPage.Rules | client/src/pages/LoginPage.jsx:24-30 | definition: the four rules in table order with their messages |
| LoginPage.RulesPassExactly | client/src/pages/LoginPage.jsx:24-30 | every rule passes exactly when the email has the x@y.z shape and the password has six characters |
| LoginPage.Validate | client/src/pages/LoginPage.jsx:21-37 | reports the first failing rule with the toast id as the value, otherwise true |
| LoginPage.ValidateForm | client/src/pages/LoginPage.jsx:21-37 | the loop over the rule table computes `Validate` |
| LoginPage.BlankEmailIsRequired | client/src/pages/LoginPage.jsx:25 | a blank email is reported as missing rather than badly formatted |
| LoginPage.SubmitsAfterFailedRule | client/src/pages/LoginPage.jsx:41-42 | as written the page submits every form |
| LoginPage.ValidateCorrected | client/src/pages/LoginPage.jsx:33 | the same toast, and false whenever a rule fails |
| LoginPage.CorrectedSubmitsExactlyAccepted | client/src/pages/LoginPage.jsx:32-42 | with the correction the page submits exactly the forms whose rules all pass |
| ForgetPasswordPage.Normalised | client/src/pages/ForgetPassword.jsx:21 | definition: `email.trim().toLowerCase()` |
| ForgetPasswordPage.Validate | client/src/pages/ForgetPassword.jsx:20-36 | passes exactly when the trimmed, lower-cased input matches the anchored pattern; a blank input is reported as missing; a passing value has no white space and one `@` |
| ForgetPasswordPage.Request | client/src/pages/ForgetPassword.jsx:38-45 | definition: the raw input is sent exactly when the form passes |
| ForgetPasswordPage.SubmittedEmailFindsCheckedAccount | client/src/pages/ForgetPassword.jsx:45 | the server normalises the raw input to the very value the page checked, which is in normal form |
| ResetPasswordPage.Validate | client/src/pages/ResetPassword.jsx:24-40 | passes exactly for a non-empty confirmed password of any length; the short-password toast fires exactly for 1 to 6 characters |
| ResetPasswordPage.Payload | client/src/pages/ResetPassword.jsx:48-51 | definition: the stored email, or an empty one when none is stored, and the password as typed |
| ResetPasswordPage.MissingStoredEmailRefused | client/src/pages/ResetPassword.jsx:13 | without a stored email the server's chain refuses every submission |
| ResetPasswordPage.ShortPasswordSubmitted | client/src/pages/ResetPassword.jsx:31 | as written "a"/"a" passes with only a warning and the server then refuses it |
| ResetPasswordPage.ValidateCorrected | client/src/pages/ResetPassword.jsx:31 | with the correction the form passes exactly for a confirmed password of at least six characters, and every refusal shows a toast or the mismatch error |
| ResetPasswordPage.CorrectedPassesServerLength | client/src/pages/ResetPassword.jsx:31 | with the correction, a password of Basic Multilingual Plane characters without presentation selectors that passes the page also passes the server's length check |
| OtpInput.IsNumberText | client/src/Components/Reuseable/OTPInput.jsx:9 | definition of ECMAScript `StringToNumber` succeeding: after trimming, blank, a `0x`/`0o`/`0b` literal, or an optionally signed decimal literal or `Infinity` |
| OtpInput.IsNaN | client/src/Components/Reuseable/OTPInput.jsx:9 | definition: `isNaN` of a string, the texts that are not number texts |
| OtpInput.LastChar | client/src/Components/Reuseable/OTPInput.jsx:12 | definition: the last character, or the empty string for empty text |
| OtpInput.AfterChange | client/src/Components/Reuseable/OTPInput.jsx:9-12 | a non-number leaves the slots as they were; otherwise the changed slot takes the last character and the others stay |
| OtpInput.Join | client/src/Components/Reuseable/OTPInput.jsx:18 | definition of `join("")`: the slots concatenated in order |
| OtpInput.OtpInputState.constructor | client/src/Components/Reuseable/OTPInput.jsx:4 | `length` empty slots |
| OtpInput.OtpInputState.HandleChange | client/src/Components/Reuseable/OTPInput.jsx:7-21 | the slots become `AfterChange`, and the joined slots are reported unless the text is not a number |
| OtpInput.OtpInputState.HandleKeydown | client/src/Components/Reuseable/OTPInput.jsx:22-39 | ignored while checking or for other keys; Backspace clears the slot and sets the status to idle |
| OtpInput.OtpInputState.StatusEffect | client/src/Components/Reuseable/OTPInput.jsx:45-49 | a "wrong" status empties every slot and the reported code; any other status changes nothing |
| OtpInput.OtpInputState.WrongTimeout | client/src/Components/Reuseable/OTPInput.jsx:50-53 | the timer sets the status back to idle |
| OtpInput.JoinDigits | client/src/Components/Reuseable/OTPInput.jsx:18 | joining one-digit slots gives a code of as many digits |
| OtpInput.DigitIsNumber | client/src/Components/Reuseable/OTPInput.jsx:9 | a typed digit is a number and lands in its slot |
| OtpInput.EmptyTextClearsSlot | client/src/Components/Reuseable/OTPInput.jsx:9-12 | emptying a slot's text is a change that clears the slot |
| OtpInput.SpaceEntersSlot | client/src/Components/Reuseable/OTPInput.jsx:9 | a space is not NaN and enters the slot |
| OtpInput.TrailingPointEntersSlot | client/src/Components/Reuseable/OTPInput.jsx:9 | "1." is not NaN and puts "." in the slot |
| OtpInput.InfinityEntersSlot | client/src/Components/Reuseable/OTPInput.jsx:9 | "Infinity" is not NaN and puts "y" in the slot |
| OtpInput.PointAloneIsNaN | client/src/Components/Reuseable/OTPInput.jsx:9 | a lone "." is NaN and is refused |

## Left out

- bcrypt is replaced by an injective stand-in (`PasswordHasher`). Its cost factor and its 72-byte input limit are not modelled.
- Salt generation is a parameter.
- `Math.random()` is a real number in [0, 1) and the float arithmetic of the code draw is taken as exact.
- JWT signatures are abstract. Token expiry is kept as the JWT_EXPIRE text; only whether `jwt.sign` can read it is modelled (`SessionToken.IsTimespan`, the grammar of the `ms` package). `jwt.verify` is a parameter that decodes an id, yields a falsy value, or throws.
- validator.js `isEmail` is a parameter. Its grammar is not modelled.
- `Text.ToLower` lowers only ASCII A to Z, the Latin-1 capitals, the Greek capitals but the sigma, and the Cyrillic capitals U+0400 to U+042F. Other capitals (Latin Extended, the Greek sigma whose lower case depends on the word, `İ` whose lower case has two code units, and the rest) are left as they are. So two emails that differ only in such a letter are two accounts in the model but one in the source.
- The `validate` step that follows each validator chain (backend/src/Middleware/auth.validate.js) is not part of this model. `AuthValidator.Outcome` assumes it rejects on any recorded message and otherwise passes the sanitised body on.
- Sending mail (verification, reset and welcome messages) is left out. Its errors are caught and do not change the reply.
- Response bodies and messages are reduced to the `AuthError` case and the status.
- Logging is left out.
- `updateUserProfile` and the messaging handlers are outside the credential core.
- Route wiring, `server.js` and the database connection are left out.
- Concurrency is left out. Each handler runs as one atomic step on the store, so interleaved requests and the race on the unique email index are not modelled.
- `AuthController.UserStore.SignupUser`: a save failing for other reasons (network, duplicate key from a concurrent signup) is not modelled. Only the schema's checks are.
- Request fields are strings, and an absent field is the empty string. A field of another JSON type (number, object, array) is not modelled.
- Client state updates are applied at once. React's batching and re-rendering, focus moves, navigation and the 400 ms delay are not modelled; only the state they leave is.
- `ResetPasswordPage.CorrectedPassesServerLength` is only stated for passwords inside the Basic Multilingual Plane without presentation selectors. Outside them the page's and the server's counts differ.
- The store stamps `updatedAt` on each save. `lastSeen` and `status` are not changed by these handlers.

## Findings

| source | as written | input that shows it | evidently intended | confidence | as-written member | corrected member |
|---|---|---|---|---|---|---|
| backend/src/Models/user.model.js:62-74 | the schema declares `resetCodeExpires` but no `resetCode`, so under Mongoose's strict mode the code assigned at auth.controller.js:211 is never saved | request a reset, then submit the mailed code within ten minutes: "Invalid reset code" | a `resetCode` string path, so the mailed code is stored and accepted | not executed | AuthController.StrictModeRejectsEveryResetCode | AuthController.ResetCodeRoundTrip |
| backend/src/Controller/auth.controller.js:309 | `generateToken(user._id, res)` puts the response in the email slot and passes no response, so the call throws after the new password was saved | any reset through an open gate: the new password is saved, the reply is 500 and no cookie is set; while the first row stands no gate ever opens, so this shows only once that row is fixed | `generateToken(user._id, user.email, res)` as in the other handlers | not executed | AuthController.UserStore.ResetPasswordAsWritten | AuthController.UserStore.ResetPassword |
| client/src/pages/SignupPage.jsx:44 | a failing rule returns `toast.error(message)`, the toast's non-empty id, which `if (!ok) return;` treats as passing | the empty form: the toast shows and the request is still sent | return `false` after the toast | not executed | SignupPage.SubmitsAfterFailedRule | SignupPage.CorrectedSubmitsExactlyAccepted |
| client/src/pages/LoginPage.jsx:33 | the same early return of the toast id | an empty email and password: the form is submitted | return `false` after the toast | not executed | LoginPage.SubmitsAfterFailedRule | LoginPage.CorrectedSubmitsExactlyAccepted |
| client/src/pages/ResetPassword.jsx:31 | a password of six characters or fewer only raises a toast and the form still passes | password "a", confirmation "a": submitted, then refused by the server's chain | refuse passwords shorter than six characters | not executed | ResetPasswordPage.ShortPasswordSubmitted | ResetPasswordPage.ValidateCorrected |
