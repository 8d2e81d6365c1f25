# Email verification for SkillConnect, modelled in Dafny

This project models the email-verification endpoint of the SkillConnect web
application (`POST /api/verify-code`) together with the user record it reads
and writes.

The endpoint takes a user name, an optional code and an action. The action is
`verify` (the default) or `resend`.
- `resend` stores a new six-digit code that expires ten minutes later, then
  asks the email service to mail it.
- `verify` checks a submitted code against the stored one. The checks run in
  a fixed order: missing code, then match and not expired, then expired, then
  incorrect.

The user record is a Mongoose schema. It trims the user name, trims and
lower-cases the email, applies length limits, an email pattern and a role
enumeration, and gives a new record its defaults.

Modules:
- `Wrappers` (`wrappers.dfy`): `Option` and `Result`.
- `Text` (`text.dfy`): the JavaScript whitespace class shared by `trim` and
  the regex escape `\s`; trimming; lower-casing; `String.length` in UTF-16
  code units.
- `Decimal` (`decimal.dfy`): `Number.prototype.toString()` for naturals and
  its inverse.
- `UserModel` (`user_model.dfy`): the `Account` record, the validators and
  setters, the defaults (`Create`) and the validity predicate `ValidAccount`.
  `Create` is proved to agree with `ValidAccount`.
- `VerifyCode` (`verify_code.dfy`): request parsing, the name lookup, code
  issue, the code checks, the spec functions `Handle` (after parsing) and
  `Step` (the whole handler), and the class `UserStore` whose method
  `Post` loads an account, changes it and saves it. `Post` is proved equal
  to `Step`.
- `VerifyCodeProperties` (`verify_code_props.dfy`): what each branch does and
  how `resend` and `verify` interact across requests, stated over `Step`.

The handler's collaborators are parameters, so one request is deterministic:
- the clock is `now`, in milliseconds since the epoch;
- the random draw is `rnd`, a natural below 900000 (`Math.random() * 900000`
  rounded down);
- the email service's answer is `email`;
- whether the database write succeeds is `saveOk`;
- the user collection is a map from user name to `Account`.

Points where the code says more than a first reading suggests:
- `userName` has no unique index; only `email` has one
  (`project/src/models/user.model.ts:30`). The model keys the store by user
  name, so it holds at most one account per name.
- `findOne({ userName })` (`project/src/app/api/verify-code/route.ts:19`)
  casts the query value through the `trim` setter of `userName`
  (`project/src/models/user.model.ts:23`). The model looks up the trimmed
  name (`LookupName`), so `"alice "` finds `alice`.
- `!code` (`project/src/app/api/verify-code/route.ts:65`) treats an empty
  code as missing, as well as an absent one.
- Nothing in the schema ties `verificationCode` to `verificationCodeExpires`.
  The handler always writes the two together. The model states "a stored
  code has an expiry" as part of `StoreInvariant` and proves that every
  request preserves it.

## Model

| member | source | states |
|---|---|---|
| Text.LeadingWhitespace | project/src/models/user.model.ts:23 | the count of leading characters removed is all whitespace, and the next character is not |
| Text.TrailingWhitespace | project/src/models/user.model.ts:23 | the count of trailing characters removed is all whitespace, and the character before them is not |
| Text.Trim | project/src/models/user.model.ts:23 | the trimmed value has no whitespace at either end |
| Text.TrimCutsWhitespace | project/src/models/user.model.ts:23 | trimming only cuts whitespace, and only from the two ends: the result is a slice of the input |
| Text.TrimOfTrimmed | project/src/models/user.model.ts:23 | a value with no whitespace at its ends is stored unchanged by the `trim` setter |
| Text.LeadingWhitespaceAfter | project/src/models/user.model.ts:23 | whitespace in front of a string adds exactly its length to the leading whitespace count |
| Text.TrailingWhitespaceBefore | project/src/models/user.model.ts:23 | whitespace after a string adds exactly its length to the trailing whitespace count |
| Text.TrimPadded | project/src/models/user.model.ts:23 | a trimmed string padded with whitespace on both sides trims back to itself, so the slice `trim` keeps is unique |
| Text.TrimIdempotent | project/src/models/user.model.ts:31 | trimming twice is trimming once |
| Text.LowerCharWhitespace | project/src/models/user.model.ts:32 | lower-casing turns no character into whitespace and no whitespace into anything else |
| Text.LowerChar | project/src/models/user.model.ts:32 | no upper-case ASCII letter remains, and letters stay letters |
| Text.Lower | project/src/models/user.model.ts:32 | the ASCII lower-casing keeps the length and leaves no upper-case ASCII letter |
| Text.LeadingWhitespaceLower | project/src/models/user.model.ts:31-32 | lower-casing keeps the leading whitespace count |
| Text.TrailingWhitespaceLower | project/src/models/user.model.ts:31-32 | lower-casing keeps the trailing whitespace count |
| Text.LowerTrimCommute | project/src/models/user.model.ts:31-32 | the `trim` and `lowercase` setters of `email` give the same result in either order |
| Text.LowerTrimStart | project/src/models/user.model.ts:31-32 | removing leading whitespace and lower-casing commute |
| Text.LowerTrimEnd | project/src/models/user.model.ts:31-32 | removing trailing whitespace and lower-casing commute |
| Text.LowerIdempotent | project/src/models/user.model.ts:32 | lower-casing a lower-cased email changes nothing |
| Text.Utf16Length | project/src/models/user.model.ts:24-25 | `minlength`/`maxlength` count UTF-16 code units: between one and two per character |
| Decimal.Pow10 | project/src/app/api/verify-code/route.ts:30 | powers of ten are positive |
| Decimal.DecimalString | project/src/app/api/verify-code/route.ts:30 | `toString()` of a natural gives only digits, with no leading zero unless the number is zero |
| Decimal.DecimalValue | project/src/app/api/verify-code/route.ts:30 | a k-digit string denotes a number below 10^k |
| Decimal.ValueOfDecimalString | project/src/app/api/verify-code/route.ts:30 | reading back a number's decimal string gives the number |
| Decimal.DecimalStringLength | project/src/app/api/verify-code/route.ts:30 | a number between 10^(k-1) and 10^k is written with exactly k digits |
| Decimal.DecimalValueLowerBound | project/src/app/api/verify-code/route.ts:30 | a k-digit string without a leading zero denotes at least 10^(k-1) |
| Decimal.DecimalStringOfValue | project/src/app/api/verify-code/route.ts:30 | a digit string without a leading zero is the `toString()` of its value |
| UserModel.ParseRole | project/src/models/user.model.ts:45-49 | the `enum` validator accepts only `user`, `talent` and `admin`, each as its own role |
| UserModel.ParseRoleName | project/src/models/user.model.ts:45-49 | every role is accepted under its own name |
| UserModel.FirstAt | project/src/models/user.model.ts:33 | finds the first `@` from a position on, or reports that there is none |
| UserModel.LastDot | project/src/models/user.model.ts:33 | finds the last `.` before a position, or reports that there is none |
| UserModel.MatchesEmailPattern | project/src/models/user.model.ts:33 | what `/^\S+@\S+\.\S+$/` accepts: no whitespace, an `@` after at least one character, then at least one character, a `.` and at least one more character |
| UserModel.IsEmailShape | project/src/models/user.model.ts:33 | the `match` validator as a scan: the first usable `@` at least two places before the last usable `.` |
| UserModel.EmailShapeIsPattern | project/src/models/user.model.ts:33 | the scanning check accepts exactly what `/^\S+@\S+\.\S+$/` accepts |
| UserModel.EmailOfParts | project/src/models/user.model.ts:33 | `local@domain.tld` with non-empty, whitespace-free parts matches the pattern |
| UserModel.EmailParts | project/src/models/user.model.ts:33 | every matching address splits into such a local part, domain and suffix |
| UserModel.UserNameCheck | project/src/models/user.model.ts:20-26 | the `userName` validators report at most one error, on the `userName` path; passing means a name was given |
| UserModel.EmailCheck | project/src/models/user.model.ts:27-34 | the `email` validators report at most one error, on the `email` path; passing means an address was given |
| UserModel.NormalizeEmail | project/src/models/user.model.ts:31-32 | the `trim` and `lowercase` setters of `email` leave a value with no whitespace at its ends and no upper-case ASCII letter |
| UserModel.PasswordCheck | project/src/models/user.model.ts:35-39 | the `password` validators report at most one error, on the `password` path; passing means a password was given |
| UserModel.RoleCheck | project/src/models/user.model.ts:45-49 | the `role` validator reports at most one error, on the `role` path |
| UserModel.UserNameCheckExact | project/src/models/user.model.ts:20-26 | the `userName` validators pass exactly when a name is given and, trimmed, is 2 to 50 units long |
| UserModel.EmailCheckExact | project/src/models/user.model.ts:27-34 | the `email` validators pass exactly when the trimmed, lower-cased address matches the pattern |
| UserModel.PasswordCheckExact | project/src/models/user.model.ts:35-39 | the `password` validators pass exactly when a password of at least 6 units is given |
| UserModel.AsSet | project/src/models/user.model.ts:18-73 | a validator's error, if any, is the only element it adds to the error set |
| UserModel.Violations | project/src/models/user.model.ts:18-73 | every path whose validators fail is reported, with the first of them that fails, and nothing else is: at most one error per path; no error means every required field was given |
| UserModel.Create | project/src/models/user.model.ts:18-73 | a created account is valid and has the setters applied. Defaults: no code, no expiry, `isVerified` false, no picture, role `user`. A rejected draft gets exactly the errors `Violations` reports, at least one |
| UserModel.ValidAccount | project/src/models/user.model.ts:18-49 | the field constraints of a stored account: trimmed name of 2 to 50 units, trimmed lower-case email matching the pattern, password of at least 6 units, trimmed picture; each required field is non-empty |
| UserModel.IsNew | project/src/models/user.model.ts:51-62 | the defaults of a new record: no code, no expiry, `isVerified` false |
| UserModel.EmailsUnique | project/src/models/user.model.ts:30 | the unique index on `email`: no two accounts share an address |
| UserModel.ValidUserNamePasses | project/src/models/user.model.ts:20-26 | a valid stored name passes the `userName` validators again |
| UserModel.ValidEmailPasses | project/src/models/user.model.ts:27-34 | a valid stored address passes the `email` validators again |
| UserModel.DraftOfPasses | project/src/models/user.model.ts:18-49 | a valid account's own fields raise no validation error |
| UserModel.CreateRoundTrip | project/src/models/user.model.ts:18-73 | every valid new account is what creating it from its own fields yields |
| UserModel.CreateAcceptsExactly | project/src/models/user.model.ts:18-73 | creation succeeds if and only if the normalised name, email and password satisfy `ValidAccount` and the role, if given, is in the enumeration |
| VerifyCode.Reply | project/src/app/api/verify-code/route.ts:21-103 | `success` is true only for "code sent" and "account verified" |
| VerifyCode.MessageText | project/src/app/api/verify-code/route.ts:23-101 | the message strings of each response; a failed delivery passes on the email service's own message |
| VerifyCode.NewCode | project/src/app/api/verify-code/route.ts:30 | the issued code has six digits and no leading zero, and its value is 100000 plus the draw |
| VerifyCode.NewCodeCovers | project/src/app/api/verify-code/route.ts:30 | every six-digit code lies in 100000..999999 and is issued by some draw |
| VerifyCode.NewCodeInjective | project/src/app/api/verify-code/route.ts:30 | different draws issue different codes |
| VerifyCode.CheckCode | project/src/app/api/verify-code/route.ts:65-96 | the verify checks, in source order: missing or empty code; match and not expired; not expired fails (even on a match); else incorrect |
| VerifyCode.CodeMatches | project/src/app/api/verify-code/route.ts:72 | `user.verificationCode === code`: a stored `null` matches no code |
| VerifyCode.ExpiryInstant | project/src/app/api/verify-code/route.ts:73 | the stored expiry in milliseconds; `new Date(null)` is the epoch |
| VerifyCode.NotExpired | project/src/app/api/verify-code/route.ts:73 | the stored expiry lies strictly after `now` |
| VerifyCode.WithNewCode | project/src/app/api/verify-code/route.ts:31-35 | `resend` writes the code and `now + 600000` as expiry, and no other field |
| VerifyCode.Step | project/src/app/api/verify-code/route.ts:12-105 | a request keeps the set of accounts and changes at most the one it looks up. It never changes name, email, password, picture or role, and never resets `isVerified` |
| VerifyCode.LookupName | project/src/app/api/verify-code/route.ts:18-19 | the name `findOne` looks up: the submitted name after the `trim` setter of `userName` |
| VerifyCode.Handle | project/src/app/api/verify-code/route.ts:19-97 | after parsing, a request keeps the set of accounts and changes at most the one it looks up. It never changes name, email, password, picture or role, and never resets `isVerified` |
| VerifyCode.StepWrites | project/src/app/api/verify-code/route.ts:28-82 | a request writes either a new code with its expiry or `isVerified := true`, or nothing |
| VerifyCode.StepPreservesInvariant | project/src/app/api/verify-code/route.ts:12-105 | a request keeps every account valid and filed under its own name, keeps emails unique, and never leaves a code without an expiry |
| VerifyCode.StoreInvariant | project/src/models/user.model.ts:18-62 | every account is valid, filed under its own name and has an expiry with its code; emails are unique |
| VerifyCode.UserStore.Save | project/src/app/api/verify-code/route.ts:36 | saving writes the loaded document back under its name |
| VerifyCode.UserStore.Post | project/src/app/api/verify-code/route.ts:12-105 | the handler, which loads, changes and saves in place, has exactly the effect `Step` gives and preserves the store invariant |
| VerifyCodeProperties.ParseRequestExact | project/src/app/api/verify-code/route.ts:6-10 | the schema accepts exactly a non-empty string name, an absent or string code, and an absent, `verify` or `resend` action |
| VerifyCode.ParseAction | project/src/app/api/verify-code/route.ts:9 | `action` is `resend` only for the string "resend"; any value other than absent, "verify" or "resend" is rejected |
| VerifyCode.ParseRequest | project/src/app/api/verify-code/route.ts:6-17 | a parsed request has a non-empty name and the action `action` parses to |
| VerifyCodeProperties.AbsentActionIsVerify | project/src/app/api/verify-code/route.ts:9 | leaving `action` out is the same request as `action: "verify"` |
| VerifyCodeProperties.UnparsableIs500 | project/src/app/api/verify-code/route.ts:98-103 | a body that fails parsing gets 500 with nothing changed and no email |
| VerifyCodeProperties.UnknownUserIs404 | project/src/app/api/verify-code/route.ts:19-26 | an unknown user name gets 404 with nothing changed and no email, for either action |
| VerifyCodeProperties.PaddedNameSameStep | project/src/app/api/verify-code/route.ts:19 | whitespace around the submitted name does not change what the request does |
| VerifyCodeProperties.ResendIssuesCode | project/src/app/api/verify-code/route.ts:28-61 | `resend` stores a new six-digit code expiring at `now + 600000` over any earlier one and mails it to the stored address. The answer is 200 if delivery succeeds; otherwise 500 with the email's message, and the code stays stored |
| VerifyCodeProperties.ResendSaveFailure | project/src/app/api/verify-code/route.ts:36 | a failed write during `resend` gets 500, changes nothing and sends no email |
| VerifyCodeProperties.VerifyWithoutCode | project/src/app/api/verify-code/route.ts:65-70 | `verify` with an absent or empty code gets 400 and changes nothing |
| VerifyCodeProperties.VerifySucceedsIff | project/src/app/api/verify-code/route.ts:72-82 | `verify` succeeds if and only if the code equals the stored one and the expiry is after `now`. It then writes only `isVerified := true`; code and expiry stay stored |
| VerifyCodeProperties.VerifySaveFailure | project/src/app/api/verify-code/route.ts:75-103 | a matching, unexpired code whose `save` fails gets 500 from the `catch`, changes nothing and sends nothing |
| VerifyCodeProperties.VerifyExpired | project/src/app/api/verify-code/route.ts:83-91 | an expiry not after `now` gets the 400 "expired" answer, even when the code matches, and changes nothing |
| VerifyCodeProperties.NullExpiryHasExpired | project/src/app/api/verify-code/route.ts:73 | a null expiry reads as the epoch, so it has expired at any time from the epoch on |
| VerifyCodeProperties.VerifyIncorrect | project/src/app/api/verify-code/route.ts:92-96 | a mismatched code that has not expired gets the 400 "incorrect" answer and changes nothing |
| VerifyCodeProperties.ResendThenVerify | project/src/app/api/verify-code/route.ts:28-82 | the code a `resend` issues verifies the account at any time in the following ten minutes, whatever the delivery outcome |
| VerifyCodeProperties.ResendSupersedes | project/src/app/api/verify-code/route.ts:28-96 | after a `resend`, any other code is "incorrect" until the new one expires, and every code is "expired" after that. Nothing changes unless the new code is accepted |
| VerifyCodeProperties.AliceCode | project/src/app/api/verify-code/route.ts:30 | the draw 382913 issues the code "482913" |
| VerifyCodeProperties.AliceScenario | project/src/app/api/verify-code/route.ts:28-82 | the draw 382913 at t mails "482913" to alice, and that code is accepted at t+1 min |
| VerifyCodeProperties.AliceRejected | project/src/app/api/verify-code/route.ts:28-96 | after the same resend, "482913" is "expired" at t+11 min and "000000" is "incorrect" at t+1 min |
| VerifyCodeProperties.GhostScenario | project/src/app/api/verify-code/route.ts:19-26 | a resend for the unknown "ghost" gets 404, changes nothing and sends nothing |

## Left out

- Database I/O is not modelled. `connectDB`, `findOne`, `save` and the `mongoose.models` registration become a map and a `saveOk` flag. A failed `connectDB` sits outside the `try` and is not modelled. Neither is a failing `findOne`, which the `catch` would turn into a 500.
- The user collection is a map keyed by `userName`, so the model holds at most one account per name. The schema does not make `userName` unique, and with several matches `findOne` returns one of them; that choice is not modelled.
- Of Mongoose's query casting only the `trim` setter on the looked-up name is modelled.
- `sendVerificationEmail` is a network call. Only its `{ success, message }` answer is an input, and the model records the arguments it was called with. If it throws instead of answering, the `catch` would give a 500; that case is not modelled.
- `Math.random` and `Date.now` become the inputs `rnd` and `now`. Floating-point rounding in `Math.floor(100000 + Math.random() * 900000)` is not modelled.
- `request.json` and the zod library are modelled only by their outcome. A body that is not a JSON object is `None`, and each field is absent, a string or some other value. Unknown keys are stripped and play no role.
- `decodeURIComponent` is treated as the identity on the user name. The 500 it causes on a malformed escape is not modelled.
- `Response.json` becomes a status, a success flag and a message kind. `MessageText` gives the message strings.
- The `console.error` logging in the `catch` is not modelled.
- Concurrent requests on the same account are not modelled. The source has no locking, and each request is modelled as one atomic step.
- `_id`, `createdAt`, `updatedAt` and `timestamps: true` are managed by the ORM and are not modelled.
- Mongoose's casting of non-string values to strings is not modelled. A draft's fields are either absent or strings.
- An `Invalid Date` in `verificationCodeExpires` is not modelled; a stored expiry is a number or `null`.
- Text.LowerChar: lower-cases only the ASCII letters, whereas `toLowerCase` lower-cases all of Unicode.
- Text.Lower: keeps the length, whereas `toLowerCase` can lengthen a string (U+0130 becomes two code points); it inherits the ASCII-only mapping of `Text.LowerChar`.
- project/src/lib/images.ts is a static table of image imports and is not part of this model.
