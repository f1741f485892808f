# Personal-finance backend: account security and transactions, in Dafny

This project models the core of a small Express/Sequelize finance backend:

- the per-user account record (`User`) and the handlers that change it:
  - rolling-code (TOTP) two-factor enable, verify and disable;
  - the mailed six-digit one-time code, issued and then checked;
  - register, login, profile update and password change;
- the bearer-token middleware, which turns an `Authorization` header into a 401, a 403 or an
  authenticated `userId`;
- the transaction table, with its add, overwrite-update, delete and list handlers.

Each handler is one atomic step. It looks up one row, checks its guards in the source's order, and
then either answers with a typed error and writes nothing, or writes a few columns.

- `AuthController.UserTable` and `TransactionController.TransactionTable` are classes. Each holds
  its table as a `map` from id to a row value, plus the auto-increment counter.
- The handler methods reassign one entry of that map. Their postconditions give the whole new
  table in terms of small per-row transition functions (`WithSecret`, `WithChallenge`, ...).
  Lemmas about those functions state single use, the expiry boundary, superseding and similar facts.
- The class invariant `Valid()` is kept by every handler. It says:
  - rows are keyed by their id, below the counter;
  - emails are unique;
  - every row is well formed: non-empty required text, a digest of a non-empty password, a secret
    stored exactly while two-factor is on, and a six-digit code stored exactly while its expiry is.

The schema ties none of the two-factor columns together. The handlers keep them paired all the same.

External pieces are parameters or symbolic functions:

- bcrypt is an injective symbolic digest (`Crypto.Hash`, `Crypto.Compare`).
- The RFC 4226 code generator is a function parameter `hotp`, giving the numeric value of a code.
  The checks of `totp.verify` with `window: 1` are written out. The token's `String()` form
  must be six UTF-16 code units long and is read with `parseInt`. Its value is compared as a number with the codes at
  `counter - 1`, `counter` and `counter + 1`, where the counter is `floor(now / 30000)`.
- JWT signing and verification (RFC 7519) are function parameters `sign` and `verify`.
- `Date.now()` is an integer parameter in milliseconds.
- The `Math.random()` sample is a real parameter in [0, 1). The mailed code is
  `Floor(100000 + r * 900000)`, rendered in decimal.
- The mail transport's success is a boolean parameter.
- An uploaded file's name is an optional string parameter.

Request bodies are typed. An absent field is `None`. JavaScript truthiness of a string field is
`Wrappers.Truthy`: present and non-empty. Email comparison is exact, because the database is
PostgreSQL with case-sensitive equality.

## Behaviour the model keeps as the code has it

- The mailed code is stored and compared in plain text.
- `login` issues the token at once, even when two-factor is enabled.
- A failed mail delivery does not roll back the stored code.
- `disableTwoFactorAuth` clears only the secret and the flag. A pending mailed code and its expiry
  stay.
- Neither mailed-code handler reads `isTwoFactorEnabled`.
- Expiry uses `expiry < now`, so a code submitted exactly at the expiry instant is accepted. A null
  expiry compares as 0, as JavaScript coerces it.
- `updateTransaction` assigns all four columns from the request, including absent ones. The
  columns are `allowNull: false`, so an absent value fails validation when the row is saved. The
  answer is then 400 and nothing is written, so the model rejects rather than storing nulls.
- `updateUser` with an email used by another row trips the unique constraint on save. The answer is
  then 500 and nothing is written.

## Model

| member | source | states |
|---|---|---|
| `AuthController.UserTable.VerifyTwoFactorAuth` | backend/controllers/authController.js:9-35 | Answers "not enabled" for a missing user or a disabled flag. Otherwise it accepts exactly when the `String()` form of the token matches the stored secret's rolling code within one time step, and answers 401 'Invalid token.' otherwise. A missing token is checked as "undefined" and always answers 401. It has no modifies clause, so it never writes the record, not even on success. |
| `AuthController.UserTable.EnableTwoFactorAuth` | backend/controllers/authController.js:37-59 | Answers 404 for an unknown user and writes nothing. Otherwise it stores the generated secret, sets the flag, and changes nothing else. |
| `AuthController.UserTable.DisableTwoFactorAuth` | backend/controllers/authController.js:61-98 | Answers 404, then 400 when two-factor is off, then 401 when a supplied code fails; each of these writes nothing. A missing or empty code skips verification. On success it clears the secret and the flag only. |
| `AuthController.UserTable.SendEmail2FAToken` | backend/controllers/authController.js:100-137 | Stores a six-digit code drawn from the random sample, with expiry now + 600000 ms, replacing any earlier code. It hands a mail with that code to the user's address. A failed delivery answers 500 but the stored code stays. |
| `AuthController.UserTable.VerifyEmail2FAToken` | backend/controllers/authController.js:139-167 | A rejection writes nothing: no code stored, a different or absent code, or an expiry before now. An acceptance clears both the code and its expiry and nothing else. |
| `AuthController.UserTable.Register` | backend/controllers/authController.js:169-209 | Rejects a missing name, email or password, then an email in use; neither creates anything. Otherwise it creates exactly one row under a fresh id, with the password's digest and the uploaded image or 'default.img'. |
| `AuthController.UserTable.Login` | backend/controllers/authController.js:212-222 | Gives the same error for an unknown email and for a wrong password. On a match it returns the token signed for that row's id, whatever the two-factor flag is. |
| `AuthController.UserTable.UpdateUser` | backend/controllers/authController.js:242-288 | Answers 404 for an unknown user. Each truthy field replaces its column, the password as a digest, and an upload replaces the image. An email owned by another row fails with 500 and writes nothing. |
| `AuthController.UserTable.ChangePassword` | backend/controllers/authController.js:290-323 | Checks in order: 404 before 400 for missing fields, then 401 for a wrong current password; none of these writes anything. On success only the digest changes, to the new password's. |
| `Wrappers.Truthy` | backend/controllers/authController.js:173 | A string field passes a `!field` test exactly when it is present and not the empty string; the same test guards :255-257 and :301. |
| `AuthController.ProfileOf` | backend/controllers/authController.js:193-198 | The answer carries the row's id, name, email and image; the same four columns answer at :278-283. |
| `AuthController.ProfileOmitsCredentials` | backend/controllers/authController.js:277-283 | Two rows that agree on id, name, email and image answer the same profile, so the digest and the two-factor columns never reach the answer. |
| `AuthController.WithSecret` | backend/controllers/authController.js:46-48 | The row afterwards has the given secret and the flag on; every other column, the pending mailed code included, is unchanged. |
| `AuthController.WithoutSecret` | backend/controllers/authController.js:89-90 | The row afterwards has no secret and the flag off; every other column, the pending mailed code included, is unchanged. |
| `AuthController.WithChallenge` | backend/controllers/authController.js:112-113 | The row afterwards holds the given code with expiry now + 600000 ms, replacing any earlier pair; every other column is unchanged. |
| `AuthController.WithoutChallenge` | backend/controllers/authController.js:158-159 | The row afterwards has neither code nor expiry; every other column is unchanged. |
| `AuthController.WithPassword` | backend/controllers/authController.js:312-315 | The new digest verifies against the new password and against no other; every other column is unchanged. |
| `AuthController.AuthError.Status` | backend/controllers/authController.js:16-308 | The statuses the account handlers answer at :16, :27, :42, :66, :70, :84, :105, :135, :146, :154, :174, :180, :217, :251, :286, :299, :302 and :308. 401 is exactly a failed proof of identity, 404 exactly an unknown user, 500 exactly a failed mail send or profile save, and 400 exactly the other refusals. |
| `AuthController.MailedCodeAccepted` | backend/controllers/authController.js:149-153 | A code is accepted exactly when a non-empty code is stored, the submission equals it, and now is not after the expiry. |
| `AuthController.ExpiryValue` | backend/controllers/authController.js:152 | A null expiry counts as 0 in the comparison with now; a stored expiry counts as itself. |
| `AuthController.Patched` | backend/controllers/authController.js:255-272 | Each truthy field replaces its column, a truthy password as a digest that verifies against it, and an upload replaces the image with its path under `/assets/profile/uploads/`. The id and every two-factor column stay. |
| `AuthController.Registered` | backend/controllers/authController.js:183-191 | The new row has the given id, name and email, a digest that verifies against the password, the uploaded image or 'default.img', and two-factor off with no secret, code or expiry. |
| `AuthController.IssuedCodeWindow` | backend/controllers/authController.js:108-155 | The code issued at t0 is accepted at time t exactly when the submission is that code and t <= t0 + 10 minutes. |
| `AuthController.ExpiryBoundary` | backend/controllers/authController.js:152 | Accepted at exactly t0 + 600000 ms; rejected one millisecond later. |
| `AuthController.MailedCodeSingleUse` | backend/controllers/authController.js:157-159 | After an accepted code is cleared, no submission is accepted at any time. |
| `AuthController.SupersededCodeRejected` | backend/controllers/authController.js:108-114 | A new challenge replaces the previous one. The earlier, different code is then rejected whatever the time. |
| `AuthController.MailedCodeIgnoresFlag` | backend/controllers/authController.js:100-167 | Issuing and checking a mailed code do not depend on `isTwoFactorEnabled`. |
| `AuthController.DisableKeepsMailedCode` | backend/controllers/authController.js:88-91 | Disabling clears the secret and the flag and keeps a pending mailed code and its expiry. |
| `AuthController.WithSecretWellFormed` | backend/controllers/authController.js:45-49 | Enabling keeps a row well formed: the secret is stored together with the flag. |
| `AuthController.WithoutSecretWellFormed` | backend/controllers/authController.js:88-91 | Disabling keeps a row well formed: the secret is cleared together with the flag. |
| `AuthController.WithChallengeWellFormed` | backend/controllers/authController.js:108-114 | Issuing a drawn code keeps a row well formed: a six-digit code is stored together with its expiry. |
| `AuthController.WithoutChallengeWellFormed` | backend/controllers/authController.js:157-160 | Clearing an accepted code keeps a row well formed: the code is cleared together with its expiry. |
| `AuthController.WithPasswordWellFormed` | backend/controllers/authController.js:311-316 | A password change to a non-empty password keeps a row well formed. |
| `AuthController.PatchedWellFormed` | backend/controllers/authController.js:255-272 | A profile update keeps a row well formed, because only truthy values replace the required text columns. |
| `AuthController.RegisteredRow` | backend/controllers/authController.js:183-191 | A registered row is well formed, stores `hash(password)`, has two-factor off, and uses the uploaded image or 'default.img'. |
| `AuthController.EmptyPasswordNeverMatches` | backend/controllers/authController.js:214-217 | No stored digest matches the empty password, so such a login always fails. |
| `AuthController.WriteKeepsEmailsUnique` | backend/models/user.js:9-13 | Writing a row whose email no other row uses keeps emails unique across the table. |
| `AuthController.RewriteKeepsInvariant` | backend/models/user.js:4-40 | Rewriting a stored row with a well-formed row of the same id, whose email is its own or free, keeps the table invariant. |
| `UserModel.EmailsUnique` | backend/models/user.js:12 | When emails are unique, two rows with the same email are the same row. |
| `UserModel.EmailTaken` | backend/controllers/authController.js:178 | When an email is not taken, no row other than the excluded one has it. |
| `UserModel.Create` | backend/models/user.js:4-40 | Creates a row with the given id, name, email and digest. Unset columns take the schema defaults: image 'default.png', two-factor flag false, and null secret, code and expiry. |
| `Crypto.Hash` | backend/controllers/authController.js:183 | The digest determines its plaintext: no other plaintext has the same digest. |
| `Crypto.Compare` | backend/controllers/authController.js:216 | `compare(p, d)` holds exactly when d is the digest of p. |
| `Crypto.CompareHash` | backend/controllers/authController.js:216 | `compare(p, hash(q))` holds exactly when p = q. |
| `Crypto.Counter` | backend/controllers/authController.js:19-24 | The counter of a clock reading is the 30-second step that contains it, also for readings before 1970. |
| `Crypto.JsLength` | backend/controllers/authController.js:19-24 | The JavaScript length of a string, in UTF-16 code units: between its number of characters and twice that, and equal to it when no character lies beyond U+FFFF. |
| `Crypto.TokenString` | backend/controllers/authController.js:10-24 | `String()` of the request's token: a present token is itself, and an absent one becomes text whose length is not six. |
| `Crypto.TotpAccepts` | backend/controllers/authController.js:19-24 | An accepted token is six UTF-16 code units long, so three to six characters, and has a `parseInt` value. |
| `Crypto.MissingTokenRejected` | backend/controllers/authController.js:19-27 | A missing token, checked as "undefined", is never accepted, so the handler answers 401. |
| `Crypto.TotpLengthInCodeUnits` | backend/controllers/authController.js:19-24 | "12345" followed by U+1F600 is seven code units and rejected; "1234" followed by U+1F600 is six code units and accepted when the current code is 1234. |
| `Crypto.TotpWindow` | backend/controllers/authController.js:19-24 | The six-digit display of the code of time t0 is accepted at any t whose counter differs from t0's by at most one. |
| `Crypto.TotpWindowOnly` | backend/controllers/authController.js:19-24 | When the secret's codes differ between counters, the code of time t0 is accepted at no time whose counter differs from t0's by more than one. |
| `Crypto.TotpSkewTolerance` | backend/controllers/authController.js:76-81 | The code of time t0 is accepted one step (30 s) earlier, at t0, and one step later. |
| `MailedCode.DrawCode` | backend/controllers/authController.js:109 | `floor(100000 + r * 900000)` with r in [0, 1) lies in 100000..999999. |
| `Decimal.DecimalString` | backend/controllers/authController.js:109 | `toString()` of a non-negative integer is a non-empty string of digits with no leading zero. |
| `Decimal.ParseDecimalString` | backend/controllers/authController.js:109 | Reading the decimal string back gives the number. |
| `Decimal.DecimalStringInjective` | backend/controllers/authController.js:109 | Two codes render to the same string exactly when they are equal. |
| `Decimal.ParsePaddedDecimal` | backend/controllers/authController.js:19-24 | A number below 10^width is read back from its zero-padded rendering of that width. |
| `Decimal.JsParseInt` | backend/controllers/authController.js:19-24 | `parseInt` gives NaN exactly when no digit follows the leading white space and an optional sign. |
| `Decimal.ParseIntStopsAtNonDigit` | backend/controllers/authController.js:19-24 | `parseInt` of digits followed by a non-digit reads the digits and ignores the rest. |
| `Decimal.ParseIntPadded` | backend/controllers/authController.js:19-24 | `parseInt` reads a code's six-digit display back as the code, leading zeros included. |
| `MailedCode.SixDigitRendering` | backend/controllers/authController.js:108-109 | Every drawn code is rendered as exactly six digits. |
| `AuthMiddleware.Outcome.Status` | backend/middleware/authMiddleware.js:7-20 | A missing header and a missing token both answer 401 (:7, :12); a token that fails verification answers 403 (:20). |
| `AuthMiddleware.Authenticate` | backend/middleware/authMiddleware.js:4-22 | Outcomes, each holding exactly when its condition does: 401 "no token" when the header is absent or empty; 401 "invalid format" when the second piece is missing or empty; 403 when verification fails; otherwise authenticated with the decoded `userId`. |
| `AuthMiddleware.Split` | backend/middleware/authMiddleware.js:10 | `split(' ')` yields at least one piece, and no piece contains a space. |
| `AuthMiddleware.JoinSplit` | backend/middleware/authMiddleware.js:10 | Joining the pieces with single spaces gives back the header, so splitting loses nothing. |
| `AuthMiddleware.SplitAfterWord` | backend/middleware/authMiddleware.js:10 | A space-free first word followed by a space splits off as the first piece, and the rest splits on its own. |
| `AuthMiddleware.TokenOf` | backend/middleware/authMiddleware.js:10-13 | An extracted token is non-empty and contains no space. |
| `AuthMiddleware.TokenIsSecondPiece` | backend/middleware/authMiddleware.js:10-13 | For `w + " " + t + rest`, where w and t have no space and rest is empty or starts with a space, the token is t; an empty t is an invalid format. |
| `AuthMiddleware.TokenPosition` | backend/middleware/authMiddleware.js:10 | An extracted token starts right after the first space and ends at the next space or at the end of the header. |
| `AuthMiddleware.SchemeIgnored` | backend/middleware/authMiddleware.js:10 | Any space-free scheme word gives the same outcome as any other, so `Bearer` is never checked. |
| `AuthMiddleware.HeaderWithoutSpace` | backend/middleware/authMiddleware.js:10-13 | A non-empty header without a space is an invalid format. |
| `AuthMiddleware.HeaderWithDoubleSpace` | backend/middleware/authMiddleware.js:10-13 | Two spaces after the scheme give an empty token, which is an invalid format. |
| `AuthMiddleware.LoginTokenAuthenticates` | backend/middleware/authMiddleware.js:15-18 | Take a token that login signed for `userId`, with sign and verify agreeing and tokens compact. Presented as `Bearer <token>`, it authenticates as that `userId`. |
| `TransactionModel.ParseCategory` | backend/models/transaction.js:14-17 | The category is one of food, transport, entertainment, utilities or other, and is read back as the name given. |
| `TransactionModel.ParseKind` | backend/models/transaction.js:18-21 | The type is income or expense, and is read back as the name given. |
| `TransactionModel.ParseNames` | backend/models/transaction.js:14-21 | Every enumeration member is read back from its own name. |
| `TransactionModel.AmountValue` | backend/models/transaction.js:10-13 | A JSON number is stored as itself. A JSON string is stored as the FLOAT validator reads it, or refused. |
| `TransactionModel.Validate` | backend/models/transaction.js:10-26 | A save succeeds exactly when all four columns are present, the amount reads as a FLOAT, the date is non-empty and passes the DATE validator, and both enumerations name a member. The stored values are the request's own. |
| `TransactionController.AmountTruthy` | backend/controllers/transactionController.js:19 | An amount passes the `!amount` test exactly when it is present and neither the number 0 nor the empty string. |
| `TransactionController.AllTruthy` | backend/controllers/transactionController.js:19 | Passing the guard implies that all four fields are present, and that the amount is neither the number 0 nor the empty string. |
| `TransactionController.GuardLeavesOnlyRefusals` | backend/controllers/transactionController.js:19-30 | Past the guard, an add fails exactly when the database refuses a value: an amount that is not a FLOAT, a name outside an enumeration, or a date that is not a date. |
| `TransactionController.ZeroAmount` | backend/controllers/transactionController.js:19-21 | The number 0 is turned away by add's truthiness test but accepted by the database on update. The string "0" passes the test and is stored as 0. |
| `TransactionController.TxError.Status` | backend/controllers/transactionController.js:20-66 | An unknown id answers 404 (:43, :66). Every other error answers 400: the missing fields at :20 and the refused saves at :30 and :54. |
| `TransactionController.TransactionTable.GetTransactions` | backend/controllers/transactionController.js:5-12 | Returns exactly the stored rows, of every user. |
| `TransactionController.TransactionTable.AddTransaction` | backend/controllers/transactionController.js:15-32 | A falsy field answers 400; values the database refuses answer 400; neither stores anything. Otherwise one row is added under a fresh id, stamped with the caller's `userId`. |
| `TransactionController.TransactionTable.UpdateTransaction` | backend/controllers/transactionController.js:35-56 | Answers 404 for an unknown id. Otherwise all four columns are overwritten with the request's values, or on a refused save (400) nothing is written. The id and the owner stay, no other row changes, and ownership is not checked. |
| `TransactionController.TransactionTable.DeleteTransaction` | backend/controllers/transactionController.js:59-74 | Answers 404 for an unknown id. Otherwise exactly that row is removed and the others stay; ownership is not checked. |
| `TransactionController.TransactionTable.AddThenDelete` | backend/controllers/transactionController.js:15-74 | An add followed by a delete of the row it created leaves the rows as they were, and the delete succeeds. Only the counter has moved on. |

## Left out

- `Crypto.TotpWindowOnly`: rejection outside the ±1 step window is proved only for a secret whose
  codes differ between counters. Real six-digit HOTP codes can collide.
- `Crypto.CompareHash`: bcryptjs uses only the first 72 bytes of a password. Two passwords that
  share those bytes therefore match the same digest, while the model's digest keeps the whole text.
- bcrypt's salt and cost factor: the digest is symbolic and deterministic.
- HMAC and RFC 4226 truncation, which `hotp` stands for.
- JWT header, claims and signature, including `iat`: `sign` and `verify` are parameters.
- `enableTwoFactorAuth` answers with the `otpauth://` URL of the secret. The model answers the
  secret, because the URL is a formatting detail of the library.
- Floating point: the rounding of `Math.random() * 900000` is not modelled, and transaction
  amounts (FLOAT) are abstract reals.
- Mail I/O: creating the nodemailer transport and sending. Only the message handed over and the
  delivery verdict are modelled.
- `updateUser` deletes the old image file from disk before saving. That filesystem effect is left
  out, including that it happens even when the save then fails.
- The upload middleware is not part of this model. Its result is the optional file name.
- Database and library exceptions that reach a handler's `catch` are not modelled in general. The
  model covers these paths into a `catch`:
  - the unique-email violation when `updateUser` saves (500);
  - `transporter.sendMail` rejecting in `sendEmail2FAToken`, caught at authController.js:133-135
    (500);
  - the database refusing the values of `addTransaction` or `updateTransaction`, caught at
    transactionController.js:28-30 and :53-54 (400).
- Request values that are not strings. The model takes every token as a string or as absent.
  - An absent token and a JSON `null` both become text of the wrong length under `String()`, so
    `verifyTwoFactorAuth` answers 401 for either.
  - An absent token never equals a stored mailed code under `!==`, so `verifyEmail2FAToken`
    answers 401 for it.
  - A numeric `token` never equals the stored mailed code under `!==`.
  - `totp.verify` applies `String()` to the token first, so a JSON number such as 123456 is
    checked as "123456" and can be accepted. A number whose code starts with 0 loses that digit
    and fails the length check.
- `login` with a missing email makes the lookup throw. With a known email, a missing password
  makes `bcrypt.compare` throw. Neither throw is inside a `try` (an unhandled rejection). An
  unknown email returns 401 at once, because the `||` at authController.js:216 stops before the
  compare. The model takes both fields as strings.
- Logging: `updateUser` logs the submitted plaintext password (authController.js:248), and
  `changePassword` logs the whole body with both passwords (authController.js:292). Console
  output is not modelled.
- `getUser` is a read-only lookup outside the modelled core.
- The report controller runs SQL aggregation over FLOAT amounts.
- The routing files. `authRoutes.js` imports `enable2FA`, `disable2FA`, `sendEmail2FA` and
  `verify2FA`, which the controller does not export (it exports `enableTwoFactorAuth` and so on).
  Express's `router.post` throws when given an undefined handler, at authRoutes.js:16-19, so
  `require('./routes/authRoutes')` at server.js:2 throws and the server never reaches `listen`. The
  model describes the handlers as they would behave if the routes were wired to them.
- Sequelize's `createdAt` and `updatedAt` columns.
- The foreign key from `Transaction.userId` to `User`: the transaction table is modelled on its
  own.
- The schema's `date` default (now) is never reached, because `addTransaction` requires a date.
  Date parsing is the parameter `isDate`, and an accepted date is kept as the text sent.
- `TransactionModel.Validate`: the FLOAT and DATE validators are the parameters `asFloat` and
  `isDate`, not written out.
- A non-numeric `:id` path parameter, which the database refuses.
- The length limit of the `STRING` columns at user.js:5-22, which is VARCHAR(255) on PostgreSQL.
  A longer name, email or image path makes the save fail with a database error. `register` then
  answers 500 at authController.js:207, and `updateUser` answers 500 at :286. The model stores the
  text whatever its length.
- Concurrency: each handler is one atomic step, so interleaved `await`s on the same row are not
  modelled.
