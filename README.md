# Two-factor account flow: a verified model

This project models the server side of an email/password login with a mailed one-time
code (OTP) and a password reset by mailed code. It covers two parts of the server:

- the account handlers of `server/Controller/authController.js`: `register`, `login`,
  `logout`, `sendVerifyOtp`, `verifyEmail`, `isAuthenticated`, `sendResetOtp` and
  `resetPassword`;
- the `userAuth` middleware of `server/Middleware/userAuth.js`, which guards the two
  verification endpoints and the user-data endpoint.

The modules are:

- `Decimal` (`decimal.dfy`): the code formula `String(Math.floor(100000 + Math.random() * 900000))`.
  It proves that every code has exactly six decimal digits and that the decimal rendering is
  injective, with a parser as the inverse.
- `Accounts` (`accounts.dfy`): the stored account document, and bcrypt as a salted hash of the
  72-byte key bcryptjs derives from a password: its UTF-8 bytes and a NUL byte, repeated from the
  start until 72 bytes are taken.
  It also holds the outcome of `jwt.verify` and the OTP guard that `verifyEmail` and
  `resetPassword` share. The account-level updates each handler performs are named functions here.
- `AuthController` (`auth_controller.dfy`): a `UserStore` class with the map from email to
  account and the next id. It has one method per handler. Each method returns the JSON reply and
  the cookie it sets or clears. Its contract states the exact message of every guard in source
  order, the whole new store on success, and an unchanged store on every guard failure. A mail
  failure in `login`, `sendVerifyOtp` or `sendResetOtp` is reported as a failure but keeps the
  code just written.
- `UserAuth` (`user_auth.dfy`): the middleware as a pure decision function with lemmas for each
  of its guards.
- `Scenarios` (`scenarios.dfy`): sequences of handler calls whose outcomes follow from the
  handlers' contracts. Examples: register then log in; verify a code twice; a mail failure after
  the code was saved; a reset followed by logins with old and new password; two logins in a row.

External dependencies are parameters:

- `salt` is bcrypt's random salt;
- `random` in [0, 1) is `Math.random()`;
- `now` is `Date.now()` in milliseconds;
- `mail` is `Delivered` or `MailError(reason)`, the outcome of `transporter.sendMail`;
- `verify` is `jwt.verify` under the server secret, from a cookie value to `Rejected` or
  `Verified(id)`.

A request field or cookie that is absent is modelled as the empty string, which JavaScript
treats as falsy in the same way.

Behaviour of the code worth knowing, all proved:

- `register` stores every account with `isAccountVerified = true`, and no handler ever sets the
  flag back to false. So `sendVerifyOtp` answers "Account already verified" for every existing
  account and never issues a code (`AuthController.UserStore.SendVerifyOtp`, last ensures).
- `verifyEmail` sets the flag before choosing its message. Its success message is therefore
  always "Login successful", and "Account verified successfully" is unreachable.
- In `login` the code is saved before the mail is sent. A failed mail answers
  `{success: false, message: <mail error>}` without the provisional cookie, yet the saved code
  still verifies. Behind `userAuth` that takes a `tempToken` or `token` cookie left from an
  earlier login, since the failed one sets none.
- bcrypt reads only the first 72 bytes of a password. Two passwords that agree on those bytes
  are interchangeable, at login and after a reset.
- bcryptjs ends the password with a NUL byte and repeats the result to fill 72 bytes. A password
  can therefore collide with its own repetition around a NUL: a hash of "a" accepts "a\0a".
- `userAuth` verifies `token` whenever it is present. Even so, the mere presence of `tempToken`
  confines the request to paths that contain "/verify-account" or "/send-verify-otp" as
  substrings.
- The restriction looks at the cookie's name, not its content. Both tokens are signed as `{id}`
  under the same secret, so a provisional token sent under the name `token` passes on every path
  and is accepted by `isAuthenticated` (`UserAuth.AllowExactly` with `tempToken` absent).

## Model

| member | source | states |
|---|---|---|
| `Decimal.OtpNumber` | server/Controller/authController.js:62 | `Math.floor(100000 + r * 900000)` lies in [100000, 999999] for every r in [0, 1) |
| `Decimal.DecimalString` | server/Controller/authController.js:62 | `String(n)` of a non-negative integer below 10^21 (JavaScript's exponent form starts there; codes stay below 10^6) is a non-empty string of decimal digits with no leading zero |
| `Decimal.ParseDecimalString` | server/Controller/authController.js:62 | reading the decimal rendering back gives the number again (round trip) |
| `Decimal.DecimalStringInjective` | server/Controller/authController.js:62 | two numbers have the same rendering exactly when they are equal |
| `Decimal.DecimalLength` | server/Controller/authController.js:62 | a number with k digits is rendered with exactly k characters |
| `Decimal.OtpCode` | server/Controller/authController.js:62 | every login, resend and reset code is exactly six decimal digits with no leading zero, so never empty and never the blank placeholder, and it reads back as the drawn number, in [100000, 999999] |
| `Decimal.OtpCodeDistinguishes` | server/Controller/authController.js:121 | two draws give the same code exactly when the formula maps them to the same number |
| `Accounts.Hash` | server/Controller/authController.js:21 | `bcrypt.hash` (also line 265) records the salt and a key of exactly 72 bytes, whatever the password's length |
| `Accounts.Matches` | server/Controller/authController.js:56 | `bcrypt.compare` accepts a password exactly when hashing it again with the stored salt gives the stored hash |
| `Accounts.KeyPrefix` | server/Controller/authController.js:56 | the key starts with the password's UTF-8 bytes, and a NUL byte follows them when the password is shorter than 72 bytes |
| `Accounts.HashAcceptsSameKey` | server/Controller/authController.js:56-59 | `bcrypt.compare` accepts exactly the passwords whose NUL-terminated, cyclically repeated 72-byte key equals that of the password the hash was made from, whatever the salt; in particular that password itself |
| `Accounts.LongPasswordsSharingPrefixCollide` | server/Controller/authController.js:56-59 | for any two passwords of at least 72 UTF-8 bytes, each one's hash accepts the other exactly when their first 72 bytes agree |
| `Accounts.TruncatedPasswordsCollide` | server/Controller/authController.js:56-59 | such pairs exist: two distinct passwords differing only in their 73rd byte, each accepted by the other's hash |
| `Accounts.NulRepetitionCollides` | server/Controller/authController.js:56-59 | the NUL terminator and the repetition make a hash of "a" accept the distinct password "a\0a" |
| `Accounts.ShortAsciiPasswordsDistinguished` | server/Controller/authController.js:56-59 | two NUL-free ASCII passwords of at most 72 characters share a key only when they are equal, so among such passwords a hash accepts only its own |
| `Accounts.OwnerOf` | server/Middleware/userAuth.js:14 | `findById` finds a document exactly when some stored account has that id, and returns that account's email |
| `Accounts.NewAccount` | server/Controller/authController.js:22-27 | a registered account holds the given name, email and hash, is verified, and no non-empty code passes either of its code guards |
| `Accounts.PublicViewHidesSecrets` | server/Controller/authController.js:209-214 | `userData` discloses nothing of the hash or the codes: replacing the hash, both codes and their expiries leaves the view unchanged |
| `Accounts.CheckOtp` | server/Controller/authController.js:152-157 | the code guard (also lines 259-263): the placeholder never passes, only the stored code is ever reported expired or accepted, and an accepted code is not yet past its expiry |
| `Accounts.CheckOtpOutcomes` | server/Controller/authController.js:152-157 | the code guard, both directions: a mismatch or the placeholder is "Invalid OTP"; a stale right code is "OTP expired"; a code is accepted up to and including its expiry millisecond |
| `Accounts.IssuedVerifyOtpLifecycle` | server/Controller/authController.js:62-64 | a freshly issued login code is accepted verbatim until one day after issue, expired after, and every other input is invalid |
| `Accounts.IssuedResetOtpLifecycle` | server/Controller/authController.js:232-234 | the same for a freshly issued reset code |
| `Accounts.IssuingTouchesOnlyItsCode` | server/Controller/authController.js:63-64 | issuing a login code (and likewise a reset code, lines 233-234) sets that code and its expiry to now + 86400000 and leaves every other field, including the other code, as it was |
| `Accounts.VerifyOtpSingleUse` | server/Controller/authController.js:159-166 | after a successful verification no code passes the login guard, the account is verified, and only the three login fields changed |
| `Accounts.ResetReplacesCredential` | server/Controller/authController.js:265-268 | after a reset the new password matches, and another password matches exactly when it shares the new one's 72-byte bcryptjs key (NUL-terminated and repeated); no reset code passes, and the login code, flag, id and email are untouched |
| `AuthController.AfterMail` | server/Controller/authController.js:92-93 | after the code is saved, a delivered mail (line 74) yields the handler's own success reply and a mail error yields a failure carrying the error's message |
| `AuthController.UserStore.FindById` | server/Controller/authController.js:113 | `findById` returns the unique email whose account has the id, or nothing |
| `AuthController.UserStore.Register` | server/Controller/authController.js:8-41 | any empty field gives "Missing details"; a taken email gives "User already exists"; both leave the store alone. Otherwise exactly one verified account is added under a fresh id with the hashed password. Email uniqueness and id uniqueness are kept |
| `AuthController.UserStore.Login` | server/Controller/authController.js:43-95 | guard order "Email and password required", "User not found", "Invalid password", each leaving the store alone. On a match only the login code and its expiry (now + 86400000) are written, before the mail. A mail error gives its message and no cookie |
| `AuthController.UserStore.SendVerifyOtp` | server/Controller/authController.js:110-138 | "User not found", then "Account already verified", both leaving the store alone. Otherwise only the login code fields are written. In a store where every account is verified it never succeeds and never writes |
| `AuthController.UserStore.VerifyEmail` | server/Controller/authController.js:140-190 | guard order "OTP required", "User not found", "Invalid OTP", "OTP expired", each leaving the store alone. On success the code is spent, the account verified, the message is "Login successful", and `tempToken` is replaced by a session token for that account |
| `AuthController.UserStore.IsAuthenticated` | server/Controller/authController.js:192-219 | no `token` or a rejected one gives "Not authenticated"; an unknown id gives "User not found"; otherwise only the public view of exactly that account (never hash or codes) |
| `AuthController.UserStore.Logout` | server/Controller/authController.js:97-108 | replies "Logout Success" and clears only the session cookie; the store is not touched |
| `AuthController.UserStore.SendResetOtp` | server/Controller/authController.js:221-247 | "Email required", then "User not found", both leaving the store alone. Otherwise only the reset code and its expiry are written, before the mail |
| `AuthController.UserStore.ResetPassword` | server/Controller/authController.js:249-274 | guard order "Email, OTP and new password required", "User not found", "Invalid OTP", "OTP expired", each leaving the store alone. On success only hash, reset code and reset expiry change |
| `UserAuth.ChosenCookie` | server/Middleware/userAuth.js:7 | `token` is chosen whenever present and `tempToken` otherwise; the choice is empty exactly when both cookies are absent |
| `UserAuth.Contains` | server/Middleware/userAuth.js:21 | `includes` holds exactly when the fragment occurs at some index of the path |
| `UserAuth.Authorize` | server/Middleware/userAuth.js:4-30 | an accepted request carries the id that the chosen cookie verified to, and that id is stored |
| `UserAuth.NoCookieMeansLogin` | server/Middleware/userAuth.js:7-11 | with neither cookie the answer is "Please login first" |
| `UserAuth.TokenWinsOverTempToken` | server/Middleware/userAuth.js:7 | with `token` present the value of `tempToken` does not matter, only whether it is present |
| `UserAuth.RejectedTokenFails` | server/Middleware/userAuth.js:13-28 | a cookie that fails verification gives "Authentication failed" on every path |
| `UserAuth.UnknownUserBeforePathCheck` | server/Middleware/userAuth.js:14-18 | a verified id with no account gives "User not found", before any path restriction |
| `UserAuth.TempTokenConfinesPath` | server/Middleware/userAuth.js:21-23 | with `tempToken` present, even beside `token`, only verification paths pass; others get "Please verify your login first" |
| `UserAuth.SubstringPathsPass` | server/Middleware/userAuth.js:21 | any path that embeds one of the two fragments anywhere counts as a verification path |
| `UserAuth.AllowExactly` | server/Middleware/userAuth.js:25-26 | a request passes with `userId = id` exactly when the chosen cookie verifies to a stored `id` and, if `tempToken` is present, the path is a verification path |
| `Scenarios.RegisterThenLogin` | server/Controller/authController.js:21-29 | a newly registered account logs in with its password, gets the provisional cookie, and holds a code expiring one day later |
| `Scenarios.LoginThenVerifyTwice` | server/Controller/authController.js:152-161 | the mailed code verifies once within its day; the second use is "Invalid OTP" |
| `Scenarios.MailFailureKeepsCode` | server/Controller/authController.js:65-74 | a failed mail reports the mail error and sets no cookie, yet the saved code still verifies (behind `userAuth` only with a cookie from an earlier login) |
| `Scenarios.ResetThenLogin` | server/Controller/authController.js:259-270 | after a reset the reset code is spent and the new password passes the login check; the old one passes exactly when it shares the new one's 72-byte bcryptjs key (NUL-terminated and repeated), and otherwise gets "Invalid password" |
| `Scenarios.SecondLoginSupersedesFirst` | server/Controller/authController.js:63-65 | a second login overwrites the first code: the first is "Invalid OTP", the second verifies |

## Left out

- Hashing: bcrypt is modelled as a salted hash of the 72-byte key bcryptjs builds for the Blowfish key schedule: the password's UTF-8 bytes, then a NUL byte, repeated from the start until 72 bytes are taken. Blowfish itself is taken to be collision-free on that key. Cost factor and constant-time comparison are not modelled. Passwords are sequences of Unicode scalar values, so a JavaScript string with a lone surrogate is not modelled.
- Tokens: JWT signing and expiry (1 hour provisional, 1 day session) are left to the `verify` parameter. A token is modelled by the id it carries. Cookie attributes (`httpOnly`, `secure`, `sameSite`, `maxAge`) are not modelled.
- Mail: the mail contents and `nodemailer` are not modelled; only success or the error message of `sendMail` is.
- Random numbers and floating point: `Math.random()` is a supplied number in [0, 1), and the code formula is computed over exact reals rather than doubles.
- Database failures: every `save` is taken to succeed, and the `catch` branches that report a database or bcrypt error message are not modelled. The same branches catch a throw from `jwt.sign` (server/Controller/authController.js lines 77 and 171, which throw only when the secret is missing); in `verifyEmail` that would come after the save, leaving the code spent behind a failure reply. So is a malformed id making `findById` throw inside `userAuth`; it is folded into `Rejected` from `verify`.
- `server/Model/userModel.js` is not part of this model. A registered account's OTP fields are taken to start as the empty string and 0. No non-empty code can match these.
- Non-string request bodies: JSON numbers, arrays or objects in the request fields are not modelled. A map keyed by strings cannot express them. An object such as `{"$ne": ""}` in `email` becomes a MongoDB query operator in `findOne({email})` (server/Controller/authController.js lines 16, 51, 228 and 255), and `email in users` cannot express that. A non-string `otp` compares unequal to the stored string under `!==`.
- Concurrency: simultaneous logins racing on one account are not modelled. Calls are sequential; two logins in a row are covered by `Scenarios.SecondLoginSupersedesFirst`.
- Routing and plumbing: the client pages, `server/server.js`, `server/Config/Mongodb.js`, the route tables and `server/Controller/userController.js` are not modelled. The last is a read-only projection with the same public view as `isAuthenticated`.
- AuthController.UserStore.Logout: the stale-token property (an issued token stays valid after logout) is not stated, because no token store exists to state it about.
