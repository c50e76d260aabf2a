# Authentication controller model

A Dafny model of the authentication controller of a MERN user-authentication backend
(`backend/controllers/auth.controller.js`). The controller's request handlers operate on one
collection of user records:

- `signup` creates an unverified user with a 6-digit verification code valid for 24 hours.
- `verifyEmail` consumes that code.
- `login` checks the credentials and stamps the last-login time.
- `logout` clears the session cookie.
- `forgotPassword` issues a 1-hour reset token.
- `resetPassword` consumes the reset token and replaces the password hash.
- `checkAuth` looks up the session's user.

Files:

- `wrappers.dfy`: `Option`, used for absent fields, nullable record fields and query results.
- `encoding.dfy`: the decimal rendering of the verification code (`Number.prototype.toString`)
  and the lower-case hex rendering of the reset token's random bytes (`Buffer.toString("hex")`).
  Each comes with its inverse and a round-trip lemma.
- `bcrypt.dfy`: a symbolic `Hash`/`Matches` pair standing for bcryptjs. The model uses only
  `Matches(pw, Hash(pw))`.
- `user_model.dfy`: the user record, its response view without the password, the collection
  (`Store`) and its invariant `WellFormed`. `WellFormed` requires ids below the next id, unique
  emails, and each token set or cleared together with its expiry. The file also holds the three
  `findOne` filters (`Query`) and `FindOne`, which returns the first record in id order that
  satisfies a filter.
- `auth_controller.dfy`: one `...Step` function per state-changing handler. Each one states what
  the handler answers and what it leaves in the store. The class `Controller` holds the
  collection as a `map` field and has one method per handler. Each method fetches the record,
  assigns its fields and saves it back, as the handler does, and is proved to perform exactly its
  step.
- `auth_properties.dfy`: properties that span several calls:
  - signup followed by verification, on both sides of the strict 24-hour deadline;
  - single use of verification codes and of reset tokens;
  - revocation of an earlier reset token by a later request;
  - indistinguishable login failures;
  - login not depending on the verification flag;
  - the store update surviving a failed welcome email.

Inputs the model takes as parameters:

- The current time (`Date.now()`, in milliseconds).
- The random draw behind the verification code: `floor(Math.random() * 900000)`, an integer
  below 900000.
- The 20 random bytes behind the reset token.
- Whether the awaited welcome email fails.
- The user id that the session middleware extracted for `checkAuth`.

Request fields that the handler tests with `!x` (auth.controller.js lines 12, 105 and 152)
are `Option<string>`. `AuthController.Present` decides them: absent and empty both count as
missing, as in JavaScript.

Three behaviours of the handlers that a reader might not expect, all of which the model follows:

- An expired token is never cleared. It stays in the record and simply no longer passes the
  `$gt: now` filter (`Satisfies`).
- `resetPassword` does not validate the new password. An empty password is hashed and stored.
  An absent one makes `bcryptjs.hash` reject, so the reply is 400 with that library's message
  and the store is unchanged.
- Replies carry the whole record except the password (`...user._doc, password: undefined`).
  The signup reply therefore includes the verification code (`SignupReplyCarriesCode`). A login
  reply includes any pending reset token.

## Model

| member | source | states |
|---|---|---|
| `Encoding.DecimalString` | backend/controllers/auth.controller.js:22 | the code's string form consists of decimal digits only and has no leading zero unless the number is 0 |
| `Encoding.DecimalRoundTrip` | backend/controllers/auth.controller.js:22 | reading the decimal string back gives the original number |
| `Encoding.DecimalLength` | backend/controllers/auth.controller.js:22 | a number with k+1 significant digits is rendered with exactly k+1 characters |
| `Encoding.DecimalInjective` | backend/controllers/auth.controller.js:22 | distinct codes are rendered as distinct strings |
| `Encoding.SixDigitCode` | backend/controllers/auth.controller.js:22 | every number in [100000, 999999] becomes six digits with a non-zero first digit |
| `Encoding.HexEncode` | backend/controllers/auth.controller.js:162 | the hex token has two lower-case hex characters per byte |
| `Encoding.HexDecode` | backend/controllers/auth.controller.js:162 | decoding succeeds only on an even-length string and gives half as many bytes |
| `Encoding.HexRoundTrip` | backend/controllers/auth.controller.js:162 | decoding the hex token gives back the random bytes |
| `Encoding.HexInjective` | backend/controllers/auth.controller.js:162 | different random bytes never give the same reset token |
| `Bcrypt.HashMatches` | backend/controllers/auth.controller.js:114 | a password matches its own hash |
| `UserModel.Sanitize` | backend/controllers/auth.controller.js:45-48 | the response view keeps the id and every field except the password hash; the view plus the dropped hash rebuilds the record exactly, and the view type cannot carry the hash |
| `UserModel.ExpiresAfter` | backend/controllers/auth.controller.js:61-64 | `$gt: now` is strict: an absent expiry never matches, an expiry at or before now does not match, any later expiry does |
| `UserModel.TokenWindow` | backend/controllers/auth.controller.js:190-192 | a code or reset filter matches only while the token's expiry is set and strictly after now, and a filter that fails at some time keeps failing at every later time |
| `UserModel.FindOne` | backend/controllers/auth.controller.js:61-64 | the result is the first record in id order that satisfies the filter; None means no record below the bound satisfies it |
| `UserModel.Lookup` | backend/controllers/auth.controller.js:16 | a record found by `findOne` is in the collection and satisfies the filter |
| `UserModel.LookupFinds` | backend/controllers/auth.controller.js:190-194 | on a well-formed collection, `findOne` finds a record iff some record satisfies the filter |
| `UserModel.LookupByEmailUnique` | backend/controllers/auth.controller.js:108 | lookup by email returns the single record that holds that email |
| `AuthController.SaveKeepsWellFormed` | backend/controllers/auth.controller.js:77 | saving a record with the same email and paired token fields keeps the collection well formed and changes no other record |
| `AuthController.SignupStep` | backend/controllers/auth.controller.js:9-55 | missing field → 400 "All fields are required", store unchanged; taken email → 400 "User already exists", store unchanged; success iff all fields present and email new. On success exactly one record is added. It holds the given email and name, `Hash(password)`, is unverified and carries a 6-digit code that expires at now + 86400000. Its reset fields and last login are unset. The reply is 201 with the record minus password, and a session cookie is set. Email uniqueness is kept |
| `AuthController.VerifyEmailStep` | backend/controllers/auth.controller.js:57-99 | no record with that code and expiry strictly after now → 400 "Invalid or expired verification code", store unchanged; success iff such a record exists and the welcome email does not fail. The first such record gets `isVerified = true` and both verification fields cleared; nothing else changes. A welcome-email failure gives 500 "server error" after the save |
| `AuthController.LoginStep` | backend/controllers/auth.controller.js:101-138 | missing field → 400 "All fields are required"; unknown email or wrong password → the same 400 "Invalid credentials", store unchanged. Success iff a record with that email matches the password. On success only `lastlogin := now` changes; the reply is 200 with the record minus password and a session cookie |
| `AuthController.ForgotPasswordStep` | backend/controllers/auth.controller.js:149-182 | missing email → 400 "All fields are required"; unknown email → 400 "Invaild email", store unchanged. On success the record with that email gets the hex token of the random bytes (40 hex characters) and expiry now + 3600000, overwriting any earlier token; nothing else changes |
| `AuthController.ResetPasswordStep` | backend/controllers/auth.controller.js:184-223 | no record with that token and expiry strictly after now → 400 "Invalid or expired reset token", store unchanged; absent password → 400 bcrypt rejection, store unchanged. Success iff the token is live and a password is given. On success the password becomes `Hash(new)` and both reset fields are cleared; nothing else changes |
| `AuthController.Controller.Signup` | backend/controllers/auth.controller.js:9-55 | the handler's reply and new collection are those of `SignupStep`, and the collection stays well formed |
| `AuthController.Controller.VerifyEmail` | backend/controllers/auth.controller.js:57-99 | the handler's reply and new collection are those of `VerifyEmailStep` |
| `AuthController.Controller.Login` | backend/controllers/auth.controller.js:101-138 | the handler's reply and new collection are those of `LoginStep` |
| `AuthController.Controller.Logout` | backend/controllers/auth.controller.js:140-146 | always 200 "Logged out successfully", cookie cleared, no user, nothing else touched |
| `AuthController.Controller.ForgotPassword` | backend/controllers/auth.controller.js:149-182 | the handler's reply and new collection are those of `ForgotPasswordStep` |
| `AuthController.Controller.ResetPassword` | backend/controllers/auth.controller.js:184-223 | the handler's reply and new collection are those of `ResetPasswordStep` |
| `AuthController.Controller.CheckAuth` | backend/controllers/auth.controller.js:225-245 | read-only; success iff the id is in the collection, with the record minus password; otherwise 400 "User not found" |
| `AuthProperties.SignupThenVerify` | backend/controllers/auth.controller.js:22-28 | the issued code verifies an account strictly before the 24-hour deadline and no longer matches the new record from the deadline on. With no older live holder of the code, the new record is the one verified |
| `AuthProperties.VerificationCodeSingleUse` | backend/controllers/auth.controller.js:73-77 | after verification the record matches no code at any time. A retry leaves it unchanged, and fails with the same 400 when no other record holds the code |
| `AuthProperties.ResetTokenSingleUse` | backend/controllers/auth.controller.js:203-209 | after a reset the new password matches and the record matches no reset token. A retry leaves it unchanged, and fails with the same 400 when no other record holds the token |
| `AuthProperties.LaterResetRequestRevokesEarlierToken` | backend/controllers/auth.controller.js:162-168 | a second forgotPassword with different random bytes makes the first token stop matching the account at any time |
| `AuthProperties.LoginFailuresIndistinguishable` | backend/controllers/auth.controller.js:110-118 | an unknown email and a wrong password for a known email get the identical reply, and neither changes the store |
| `AuthProperties.LoginIgnoresVerification` | backend/controllers/auth.controller.js:108-123 | whether login succeeds does not depend on the record's `isVerified` flag |
| `AuthProperties.WelcomeMailFailureKeepsVerification` | backend/controllers/auth.controller.js:77-79 | a failing welcome email gives 500 "server error", yet the store is the one a successful verification leaves, and differs from the store before the call |
| `AuthProperties.DistinctDrawsGiveDistinctCodes` | backend/controllers/auth.controller.js:22-27 | two signups with different random draws store different verification codes |
| `AuthProperties.SignupReplyCarriesCode` | backend/controllers/auth.controller.js:42-49 | the signup reply's user includes the verification code |

## Left out

- HTTP plumbing: request and response objects, JSON serialisation, the cookie's name and
  options, and JWT signing. `generateTokenAndSetCookie` is not part of this model. Its effect
  is the `Cookie` value of a reply.
- Mongoose internals and the unseen user schema: query casting, `_doc`, `.select`, schema
  defaults, and the `createdAt`/`updatedAt` timestamps. A new record's `lastlogin` is left unset.
- AuthController.LoginStep: the login handler writes the field `lastlogin` (all lower case).
  The model assumes the user schema, which is not part of this model, saves a field with
  exactly that spelling. If the schema spells it differently, a strict schema discards the
  write, so login changes nothing in the store and the reply shows the old value.
- `findOne` order: the database's natural order is modelled as insertion (id) order.
- Store failures: exceptions from `findOne` or `save` (the generic catch branches), malformed
  ids in `findById`, and every other database error are not modelled.
- bcryptjs: the hash is symbolic. Salting, the cost factor 10 and one-wayness are not modelled.
  `Matches` is exact equality of digests, whereas bcryptjs compares only the first 72 bytes of
  a password. No proved property relies on two passwords never matching the same hash.
- `Math.random` floating-point arithmetic and `crypto.randomBytes` are replaced by their
  results, given as inputs.
- Mail sending: the verification, reset and reset-success emails are fire-and-forget and have
  no effect on the reply. The reset and reset-success sends have no `.catch`, so a rejection
  there is an unhandled promise rejection, which is not modelled. Building the reset URL from
  `CLIENT_URL` and console logging are also left out. Only the awaited welcome email's failure
  is kept, as an input.
- Request fields are modelled as strings or absent. A non-string JSON value is not modelled:
  a number, or an object such as a query operator. Such an operator object would be passed
  into the `findOne` filters unchanged, for example `{"$ne": null}` as a verification code.
  An absent `code` in `verifyEmail` is not modelled either, because whether it matches
  depends on how the driver serialises `undefined`.
- Concurrency: two simultaneous signups for one email, and the interleaving of awaited calls.
  Each handler is one atomic step here.
- `frontend/src/App.jsx` is presentation only.
