/**
 * The account handlers of the authentication controller: rolling-code two-factor setup, the mailed
 * one-time code, registration, login, profile update and password change.
 *
 * Every handler looks up one row, checks its guards in the order the controller does, and then
 * either answers with an error and writes nothing, or writes a few columns of that row. The clock
 * (`Date.now()`), the `Math.random()` sample, the generated secret, the mail transport's verdict and
 * the uploaded file's name are parameters.
 */
module AuthController {
  import opened Wrappers
  import opened Crypto
  import opened Decimal
  import opened MailedCode
  import opened UserModel

  /** A mailed code stays valid for 10 * 60 * 1000 milliseconds. */
  const ChallengeLifetimeMs: int := 600000

  /** The image `register` stores when no file was uploaded (not the schema's default). */
  const RegisterDefaultImage: string := "default.img"

  /** The public path an uploaded profile image is stored under. */
  const UploadDir: string := "/assets/profile/uploads/"

  const MailSubject: string := "Your 2FA Code"
  const MailTextPrefix: string := "Your verification code is: "

  /** The error answers, one per distinct response of the controller. */
  datatype AuthError =
    | TwoFactorNotEnabled    // 'Two-factor authentication is not enabled.'
    | InvalidTotp            // 'Invalid token.'
    | UserNotFound           // 'User not found.' ('User not found', without the full stop, in `updateUser`)
    | MailFailed             // 'Failed to send 2FA token.'
    | InvalidOrExpiredCode   // 'Invalid or expired token.'
    | RegistrationIncomplete // 'Name, email, and password are required.'
    | EmailInUse             // 'Email is already in use.'
    | InvalidCredentials     // 'Invalid credentials'
    | PasswordsMissing       // 'Old or new password is missing'
    | WrongCurrentPassword   // 'Current password is incorrect.'
    | UpdateFailed           // 'Failed to update user details'
  {
    /**
     * The HTTP status the controller answers with: 401 for a failed proof of identity, 404 for an
     * unknown user, 500 for a failure caught from the database or the mail transport, and 400 for
     * every refused request.
     */
    function Status(): (s: nat)
      ensures s == 401 <==> InvalidTotp? || InvalidOrExpiredCode? || InvalidCredentials? || WrongCurrentPassword?
      ensures s == 404 <==> UserNotFound?
      ensures s == 500 <==> MailFailed? || UpdateFailed?
      ensures s == 400 <==> TwoFactorNotEnabled? || RegistrationIncomplete? || EmailInUse? || PasswordsMissing?
    {
      match this
      case TwoFactorNotEnabled => 400
      case InvalidTotp => 401
      case UserNotFound => 404
      case MailFailed => 500
      case InvalidOrExpiredCode => 401
      case RegistrationIncomplete => 400
      case EmailInUse => 400
      case InvalidCredentials => 401
      case PasswordsMissing => 400
      case WrongCurrentPassword => 401
      case UpdateFailed => 500
    }
  }

  /** The columns `register` and `updateUser` answer with; the password digest is not among them. */
  datatype Profile = Profile(id: UserId, name: string, email: string, image: string)

  /** The message handed to the mail transport. */
  datatype Mail = Mail(to: string, subject: string, text: string)

  /** The answer's view of a row: its id, name, email and image, and nothing of its credentials. */
  function ProfileOf(u: User): (p: Profile)
    ensures p.id == u.id && p.name == u.name && p.email == u.email && p.image == u.image
  {
    Profile(u.id, u.name, u.email, u.image)
  }

  /** Two rows that differ only in their digest and two-factor columns answer the same profile. */
  lemma ProfileOmitsCredentials(u: User, v: User)
    requires v.id == u.id && v.name == u.name && v.email == u.email && v.image == u.image
    ensures ProfileOf(v) == ProfileOf(u)
  {
  }

  // ---------------------------------------------------------------------------------------------
  // What the handlers write into one row

  /** `enableTwoFactorAuth`: a fresh secret and the flag on. */
  function WithSecret(u: User, secret: string): (v: User)
    ensures v.twoFactorSecret == Some(secret) && v.isTwoFactorEnabled
    ensures v.id == u.id && v.name == u.name && v.email == u.email && v.password == u.password && v.image == u.image
    ensures v.twoFactorToken == u.twoFactorToken && v.twoFactorExpiry == u.twoFactorExpiry
  {
    u.(twoFactorSecret := Some(secret), isTwoFactorEnabled := true)
  }

  /** `disableTwoFactorAuth`: secret cleared and flag off; a pending mailed code is left alone. */
  function WithoutSecret(u: User): (v: User)
    ensures v.twoFactorSecret == None && !v.isTwoFactorEnabled
    ensures v.id == u.id && v.name == u.name && v.email == u.email && v.password == u.password && v.image == u.image
    ensures v.twoFactorToken == u.twoFactorToken && v.twoFactorExpiry == u.twoFactorExpiry
  {
    u.(twoFactorSecret := None, isTwoFactorEnabled := false)
  }

  /** `sendEmail2FAToken`: the code in plain text and its expiry, replacing any earlier ones. */
  function WithChallenge(u: User, code: string, nowMs: int): (v: User)
    ensures v.twoFactorToken == Some(code) && v.twoFactorExpiry == Some(nowMs + ChallengeLifetimeMs)
    ensures v.id == u.id && v.name == u.name && v.email == u.email && v.password == u.password && v.image == u.image
    ensures v.twoFactorSecret == u.twoFactorSecret && v.isTwoFactorEnabled == u.isTwoFactorEnabled
  {
    u.(twoFactorToken := Some(code), twoFactorExpiry := Some(nowMs + ChallengeLifetimeMs))
  }

  /** `verifyEmail2FAToken` on success: the code and its expiry both cleared. */
  function WithoutChallenge(u: User): (v: User)
    ensures v.twoFactorToken == None && v.twoFactorExpiry == None
    ensures v.id == u.id && v.name == u.name && v.email == u.email && v.password == u.password && v.image == u.image
    ensures v.twoFactorSecret == u.twoFactorSecret && v.isTwoFactorEnabled == u.isTwoFactorEnabled
  {
    u.(twoFactorToken := None, twoFactorExpiry := None)
  }

  /** `changePassword` on success: only the digest changes. */
  function WithPassword(u: User, plaintext: string): (v: User)
    ensures Compare(plaintext, v.password)
    ensures forall q :: Compare(q, v.password) ==> q == plaintext
    ensures v.id == u.id && v.name == u.name && v.email == u.email && v.image == u.image
    ensures v.twoFactorSecret == u.twoFactorSecret && v.isTwoFactorEnabled == u.isTwoFactorEnabled
    ensures v.twoFactorToken == u.twoFactorToken && v.twoFactorExpiry == u.twoFactorExpiry
  {
    u.(password := Hash(plaintext))
  }

  /** `updateUser`: each truthy field replaces its column; an upload replaces the image. */
  function Patched(u: User, name: Option<string>, email: Option<string>, password: Option<string>,
                   file: Option<string>): (v: User)
    ensures v.name == (if Truthy(name) then name.value else u.name)
    ensures v.email == (if Truthy(email) then email.value else u.email)
    ensures Truthy(password) ==> Compare(password.value, v.password)
    ensures !Truthy(password) ==> v.password == u.password
    ensures v.image == (if file.Some? then UploadDir + file.value else u.image)
    ensures v.id == u.id && v.isTwoFactorEnabled == u.isTwoFactorEnabled && v.twoFactorSecret == u.twoFactorSecret
    ensures v.twoFactorToken == u.twoFactorToken && v.twoFactorExpiry == u.twoFactorExpiry
  {
    u.(name := if Truthy(name) then name.value else u.name,
       email := if Truthy(email) then email.value else u.email,
       password := if Truthy(password) then Hash(password.value) else u.password,
       image := if file.Some? then UploadDir + file.value else u.image)
  }

  /** The row `register` creates. */
  function Registered(id: UserId, name: string, email: string, password: string, file: Option<string>): (u: User)
    ensures u.id == id && u.name == name && u.email == email
    ensures Compare(password, u.password)
    ensures u.image == if file.Some? then UploadDir + file.value else RegisterDefaultImage
    ensures !u.isTwoFactorEnabled && u.twoFactorSecret == None
    ensures u.twoFactorToken == None && u.twoFactorExpiry == None
  {
    Create(id, name, email, Hash(password),
           Some(if file.Some? then UploadDir + file.value else RegisterDefaultImage))
  }

  /** Writing a row whose email no other row uses keeps emails unique. */
  lemma WriteKeepsEmailsUnique(rows: map<UserId, User>, k: UserId, u: User)
    requires EmailsUnique(rows)
    requires !EmailTaken(rows, u.email, Some(k))
    ensures EmailsUnique(rows[k := u])
  {
  }

  /** Rewriting a row without touching its email keeps emails unique. */
  lemma SameEmailKeepsUnique(rows: map<UserId, User>, k: UserId, u: User)
    requires EmailsUnique(rows)
    requires k in rows && rows[k].email == u.email
    ensures EmailsUnique(rows[k := u])
  {
  }

  /** A nullable timestamp in a `<` comparison: JavaScript turns `null` into 0. */
  function ExpiryValue(expiry: Option<int>): (v: int)
    ensures expiry.None? ==> v == 0
    ensures expiry.Some? ==> v == expiry.value
  {
    if expiry.Some? then expiry.value else 0
  }

  /** The guard of `verifyEmail2FAToken`, written as the controller tests for rejection. */
  predicate MailedCodeAccepted(u: User, token: string, nowMs: int)
    ensures MailedCodeAccepted(u, token, nowMs)
      <==> token != "" && u.twoFactorToken == Some(token) && nowMs <= ExpiryValue(u.twoFactorExpiry)
  {
    !(!Truthy(u.twoFactorToken) || u.twoFactorToken != Some(token) || ExpiryValue(u.twoFactorExpiry) < nowMs)
  }

  /**
   * What every row satisfies once the handlers have written it (the schema itself ties none of the
   * two-factor columns together): required text is non-empty, the digest is of a non-empty
   * password, a secret is stored exactly while the flag is on, and a mailed code is stored, as six
   * digits, exactly while its expiry is.
   */
  ghost predicate WellFormed(u: User)
  {
    && u.name != ""
    && u.email != ""
    && u.password.preimage != ""
    && (u.isTwoFactorEnabled <==> u.twoFactorSecret.Some?)
    && (u.twoFactorToken.Some? <==> u.twoFactorExpiry.Some?)
    && (u.twoFactorToken.Some? ==> IsSixDigitCode(u.twoFactorToken.value))
  }

  // ---------------------------------------------------------------------------------------------
  // Properties of the mailed code

  /**
   * The code issued at `t0` from the sample `r` is accepted at time `t` iff the submission is that
   * code and `t <= t0 + 10 minutes`: the comparison is strict, so the expiry instant itself passes.
   */
  lemma IssuedCodeWindow(u: User, r: real, t0: int, token: string, t: int)
    requires 0.0 <= r < 1.0
    ensures MailedCodeAccepted(WithChallenge(u, DecimalString(DrawCode(r)), t0), token, t)
      <==> token == DecimalString(DrawCode(r)) && t <= t0 + ChallengeLifetimeMs
  {
  }

  /** The boundary: accepted at exactly ten minutes, rejected one millisecond later. */
  lemma ExpiryBoundary(u: User, code: string, t0: int)
    requires code != ""
    ensures MailedCodeAccepted(WithChallenge(u, code, t0), code, t0 + ChallengeLifetimeMs)
    ensures !MailedCodeAccepted(WithChallenge(u, code, t0), code, t0 + ChallengeLifetimeMs + 1)
  {
  }

  /** Single use: once accepted and cleared, no submission is accepted again, at any time. */
  lemma MailedCodeSingleUse(u: User, token: string, nowMs: int, again: string, later: int)
    requires MailedCodeAccepted(u, token, nowMs)
    ensures !MailedCodeAccepted(WithoutChallenge(u), again, later)
  {
  }

  /** A new challenge supersedes the previous one: the earlier code is rejected, whatever the time. */
  lemma SupersededCodeRejected(u: User, first: nat, second: nat, t1: int, t2: int, t: int)
    requires first != second
    ensures !MailedCodeAccepted(WithChallenge(WithChallenge(u, DecimalString(first), t1), DecimalString(second), t2),
                                DecimalString(first), t)
  {
    DecimalStringInjective(first, second);
  }

  /** Neither issuing nor checking a mailed code depends on the two-factor flag. */
  lemma MailedCodeIgnoresFlag(u: User, enabled: bool, code: string, t0: int, token: string, t: int)
    ensures MailedCodeAccepted(u.(isTwoFactorEnabled := enabled), token, t) == MailedCodeAccepted(u, token, t)
    ensures WithChallenge(u.(isTwoFactorEnabled := enabled), code, t0) == WithChallenge(u, code, t0).(isTwoFactorEnabled := enabled)
  {
  }

  /** Disabling the rolling code leaves a pending mailed code and its expiry in place. */
  lemma DisableKeepsMailedCode(u: User)
    ensures WithoutSecret(u).twoFactorToken == u.twoFactorToken
    ensures WithoutSecret(u).twoFactorExpiry == u.twoFactorExpiry
    ensures !WithoutSecret(u).isTwoFactorEnabled && WithoutSecret(u).twoFactorSecret == None
  {
  }

  // ---------------------------------------------------------------------------------------------
  // The row writes keep WellFormed

  /** Enabling keeps a row well formed: the secret arrives with the flag. */
  lemma WithSecretWellFormed(u: User, secret: string)
    requires WellFormed(u)
    ensures WellFormed(WithSecret(u, secret))
  {
  }

  /** Disabling keeps a row well formed: the secret leaves with the flag. */
  lemma WithoutSecretWellFormed(u: User)
    requires WellFormed(u)
    ensures WellFormed(WithoutSecret(u))
  {
  }

  /** Issuing a drawn code keeps a row well formed: a six-digit code arrives with its expiry. */
  lemma WithChallengeWellFormed(u: User, r: real, nowMs: int)
    requires WellFormed(u)
    requires 0.0 <= r < 1.0
    ensures WellFormed(WithChallenge(u, DecimalString(DrawCode(r)), nowMs))
  {
    SixDigitRendering(DrawCode(r));
  }

  /** Clearing the code keeps a row well formed: the code leaves with its expiry. */
  lemma WithoutChallengeWellFormed(u: User)
    requires WellFormed(u)
    ensures WellFormed(WithoutChallenge(u))
  {
  }

  /** A password change to a non-empty password keeps a row well formed. */
  lemma WithPasswordWellFormed(u: User, plaintext: string)
    requires WellFormed(u)
    requires plaintext != ""
    ensures WellFormed(WithPassword(u, plaintext))
  {
  }

  /** A profile patch keeps a row well formed: only truthy values replace the required text. */
  lemma PatchedWellFormed(u: User, name: Option<string>, email: Option<string>, password: Option<string>,
                          file: Option<string>)
    requires WellFormed(u)
    ensures WellFormed(Patched(u, name, email, password, file))
  {
  }

  /** A registered row is well formed, and stores the password's digest, never the plain text. */
  lemma RegisteredRow(id: UserId, name: string, email: string, password: string, file: Option<string>)
    requires name != "" && email != "" && password != ""
    ensures WellFormed(Registered(id, name, email, password, file))
    ensures Registered(id, name, email, password, file).password == Hash(password)
    ensures !Registered(id, name, email, password, file).isTwoFactorEnabled
    ensures Registered(id, name, email, password, file).image
              == if file.Some? then UploadDir + file.value else RegisterDefaultImage
  {
  }

  /** No stored digest matches the empty password, so `login` with it always fails. */
  lemma EmptyPasswordNeverMatches(u: User)
    requires WellFormed(u)
    ensures !Compare("", u.password)
  {
  }

  // ---------------------------------------------------------------------------------------------
  // The table and the handlers

  /** Rows are keyed by their id, ids come from the counter, rows are well formed, emails unique. */
  ghost predicate TableInvariant(rows: map<UserId, User>, nextId: nat)
  {
    && 1 <= nextId
    && (forall k :: k in rows ==> rows[k].id == k && 1 <= k < nextId && WellFormed(rows[k]))
    && EmailsUnique(rows)
  }

  /** Rewriting a stored row with a well-formed row of the same id and a free email keeps the invariant. */
  lemma RewriteKeepsInvariant(rows: map<UserId, User>, nextId: nat, k: UserId, u: User)
    requires TableInvariant(rows, nextId)
    requires k in rows && u.id == k && WellFormed(u)
    requires u.email == rows[k].email || !EmailTaken(rows, u.email, Some(k))
    ensures TableInvariant(rows[k := u], nextId)
  {
    if u.email == rows[k].email {
      SameEmailKeepsUnique(rows, k, u);
    } else {
      WriteKeepsEmailsUnique(rows, k, u);
    }
  }

  class UserTable {
    var rows: map<UserId, User>
    var nextId: nat

    ghost predicate Valid()
      reads this
    {
      TableInvariant(rows, nextId)
    }

    constructor ()
      ensures Valid() && rows == map[] && nextId == 1
    {
      rows := map[];
      nextId := 1;
    }

    /**
     * `verifyTwoFactorAuth`: checks a rolling code against the stored secret; writes nothing. The
     * library checks `String(token)`, so a missing token is checked as "undefined" and fails.
     */
    method VerifyTwoFactorAuth(userId: UserId, token: Option<string>, nowMs: int, hotp: (string, int) -> int)
      returns (r: Result<(), AuthError>)
      requires Valid()
      ensures userId !in rows || !rows[userId].isTwoFactorEnabled ==> r == Failure(TwoFactorNotEnabled)
      ensures userId in rows && rows[userId].isTwoFactorEnabled ==>
                && rows[userId].twoFactorSecret.Some?
                && (r == if TotpAccepts(hotp, rows[userId].twoFactorSecret.value, TokenString(token), nowMs)
                         then Success(()) else Failure(InvalidTotp))
      ensures token.None? ==> r.Failure?
    {
      if userId !in rows || !rows[userId].isTwoFactorEnabled {
        return Failure(TwoFactorNotEnabled);
      }
      var user := rows[userId];
      if !TotpAccepts(hotp, user.twoFactorSecret.value, TokenString(token), nowMs) {
        return Failure(InvalidTotp);
      }
      r := Success(());
    }

    /** `enableTwoFactorAuth`: stores the generated secret and turns the flag on; answers the secret. */
    method EnableTwoFactorAuth(userId: UserId, secret: string) returns (r: Result<string, AuthError>)
      requires Valid()
      modifies this
      ensures Valid() && nextId == old(nextId)
      ensures userId !in old(rows) ==> r == Failure(UserNotFound) && rows == old(rows)
      ensures userId in old(rows) ==>
                r == Success(secret) && rows == old(rows)[userId := WithSecret(old(rows)[userId], secret)]
    {
      if userId !in rows {
        return Failure(UserNotFound);
      }
      var user := rows[userId];
      user := user.(twoFactorSecret := Some(secret));
      user := user.(isTwoFactorEnabled := true);
      WithSecretWellFormed(rows[userId], secret);
      RewriteKeepsInvariant(rows, nextId, userId, user);
      rows := rows[userId := user];
      r := Success(secret);
    }

    /**
     * `disableTwoFactorAuth`: refuses when the flag is off, checks the rolling code only when one was
     * supplied, and on success clears the secret and the flag.
     */
    method DisableTwoFactorAuth(userId: UserId, token: Option<string>, nowMs: int, hotp: (string, int) -> int)
      returns (r: Result<(), AuthError>)
      requires Valid()
      modifies this
      ensures Valid() && nextId == old(nextId)
      ensures userId !in old(rows) ==> r == Failure(UserNotFound) && rows == old(rows)
      ensures userId in old(rows) && !old(rows)[userId].isTwoFactorEnabled ==>
                r == Failure(TwoFactorNotEnabled) && rows == old(rows)
      ensures userId in old(rows) && old(rows)[userId].isTwoFactorEnabled ==>
                && old(rows)[userId].twoFactorSecret.Some?
                && (r.Success? <==> (!Truthy(token)
                                     || TotpAccepts(hotp, old(rows)[userId].twoFactorSecret.value, token.value, nowMs)))
      ensures userId in old(rows) && old(rows)[userId].isTwoFactorEnabled && r.Failure? ==>
                r == Failure(InvalidTotp) && rows == old(rows)
      ensures userId in old(rows) && old(rows)[userId].isTwoFactorEnabled && r.Success? ==>
                rows == old(rows)[userId := WithoutSecret(old(rows)[userId])]
    {
      if userId !in rows {
        return Failure(UserNotFound);
      }
      var user := rows[userId];
      if !user.isTwoFactorEnabled {
        return Failure(TwoFactorNotEnabled);
      }
      var accepted := !Truthy(token) || TotpAccepts(hotp, user.twoFactorSecret.value, token.value, nowMs);
      if !accepted {
        return Failure(InvalidTotp);
      }
      user := user.(twoFactorSecret := None);
      user := user.(isTwoFactorEnabled := false);
      assert user == WithoutSecret(rows[userId]);
      WithoutSecretWellFormed(rows[userId]);
      RewriteKeepsInvariant(rows, nextId, userId, user);
      rows := rows[userId := user];
      r := Success(());
    }

    /**
     * `sendEmail2FAToken`: draws a six-digit code from the sample `sample`, stores it with an expiry ten
     * minutes after `nowMs`, saves, and only then hands the mail to the transport; `delivered` is
     * the transport's verdict. A failed delivery answers an error but the stored code stays.
     */
    method SendEmail2FAToken(userId: UserId, sample: real, nowMs: int, delivered: bool)
      returns (r: Result<(), AuthError>, mail: Option<Mail>)
      requires 0.0 <= sample < 1.0
      requires Valid()
      modifies this
      ensures Valid() && nextId == old(nextId)
      ensures userId !in old(rows) ==> r == Failure(UserNotFound) && mail == None && rows == old(rows)
      ensures userId in old(rows) ==>
                var code := DecimalString(DrawCode(sample));
                && rows == old(rows)[userId := WithChallenge(old(rows)[userId], code, nowMs)]
                && mail == Some(Mail(old(rows)[userId].email, MailSubject, MailTextPrefix + code))
                && r == if delivered then Success(()) else Failure(MailFailed)
    {
      if userId !in rows {
        return Failure(UserNotFound), None;
      }
      var code := DecimalString(DrawCode(sample));
      var user := rows[userId];
      user := user.(twoFactorToken := Some(code));
      user := user.(twoFactorExpiry := Some(nowMs + ChallengeLifetimeMs));
      WithChallengeWellFormed(rows[userId], sample, nowMs);
      RewriteKeepsInvariant(rows, nextId, userId, user);
      rows := rows[userId := user];
      mail := Some(Mail(user.email, MailSubject, MailTextPrefix + code));
      r := if delivered then Success(()) else Failure(MailFailed);
    }

    /**
     * `verifyEmail2FAToken`: accepts the stored, unexpired code once and then clears it. An absent
     * token never equals a stored code under `!==`, so it is rejected like a wrong one.
     */
    method VerifyEmail2FAToken(userId: UserId, token: Option<string>, nowMs: int) returns (r: Result<(), AuthError>)
      requires Valid()
      modifies this
      ensures Valid() && nextId == old(nextId)
      ensures userId !in old(rows) ==> r == Failure(UserNotFound) && rows == old(rows)
      ensures userId in old(rows) && !(token.Some? && MailedCodeAccepted(old(rows)[userId], token.value, nowMs)) ==>
                r == Failure(InvalidOrExpiredCode) && rows == old(rows)
      ensures userId in old(rows) && token.Some? && MailedCodeAccepted(old(rows)[userId], token.value, nowMs) ==>
                r == Success(()) && rows == old(rows)[userId := WithoutChallenge(old(rows)[userId])]
      ensures token.None? ==> r.Failure? && rows == old(rows)
    {
      if userId !in rows {
        return Failure(UserNotFound);
      }
      var user := rows[userId];
      if !Truthy(user.twoFactorToken) || user.twoFactorToken != token
         || ExpiryValue(user.twoFactorExpiry) < nowMs {
        return Failure(InvalidOrExpiredCode);
      }
      user := user.(twoFactorToken := None);
      user := user.(twoFactorExpiry := None);
      WithoutChallengeWellFormed(rows[userId]);
      RewriteKeepsInvariant(rows, nextId, userId, user);
      rows := rows[userId := user];
      r := Success(());
    }

    /**
     * `register`: all three fields are required and the email must be free; the new row gets the
     * next id, the password's digest and the uploaded image or 'default.img'.
     */
    method Register(name: Option<string>, email: Option<string>, password: Option<string>, file: Option<string>)
      returns (r: Result<Profile, AuthError>)
      requires Valid()
      modifies this
      ensures Valid()
      ensures !(Truthy(name) && Truthy(email) && Truthy(password)) ==>
                r == Failure(RegistrationIncomplete) && unchanged(this)
      ensures Truthy(name) && Truthy(email) && Truthy(password) && EmailTaken(old(rows), email.value, None) ==>
                r == Failure(EmailInUse) && unchanged(this)
      ensures Truthy(name) && Truthy(email) && Truthy(password) && !EmailTaken(old(rows), email.value, None) ==>
                var row := Registered(old(nextId), name.value, email.value, password.value, file);
                && old(nextId) !in old(rows)
                && rows == old(rows)[old(nextId) := row]
                && nextId == old(nextId) + 1
                && r == Success(ProfileOf(row))
    {
      if !Truthy(name) || !Truthy(email) || !Truthy(password) {
        return Failure(RegistrationIncomplete);
      }
      if EmailTaken(rows, email.value, None) {
        return Failure(EmailInUse);
      }
      var image := RegisterDefaultImage;
      if file.Some? {
        image := UploadDir + file.value;
      }
      var user := Create(nextId, name.value, email.value, Hash(password.value), Some(image));
      RegisteredRow(nextId, name.value, email.value, password.value, file);
      rows := rows[nextId := user];
      nextId := nextId + 1;
      r := Success(ProfileOf(user));
    }

    /**
     * `login`: the same error for an unknown email and for a wrong password; on a match, the token
     * signed for the row's id, whatever the two-factor flag says.
     */
    method Login(email: string, password: string, sign: UserId -> string) returns (r: Result<string, AuthError>)
      requires Valid()
      ensures r.Failure? ==> r.error == InvalidCredentials
      ensures (forall k :: k in rows ==> rows[k].email != email) ==> r.Failure?
      ensures forall k :: k in rows && rows[k].email == email ==>
                r == if Compare(password, rows[k].password) then Success(sign(k)) else Failure(InvalidCredentials)
    {
      if k :| k in rows && rows[k].email == email {
        if !Compare(password, rows[k].password) {
          return Failure(InvalidCredentials);
        }
        r := Success(sign(k));
      } else {
        r := Failure(InvalidCredentials);
      }
    }

    /**
     * `updateUser`: each truthy field replaces its column (a new password is hashed) and an upload
     * replaces the image. An email already used by another row violates the unique constraint at
     * save time, which answers 500 and writes nothing.
     */
    method UpdateUser(userId: UserId, name: Option<string>, email: Option<string>, password: Option<string>,
                      file: Option<string>)
      returns (r: Result<Profile, AuthError>)
      requires Valid()
      modifies this
      ensures Valid() && nextId == old(nextId)
      ensures userId !in old(rows) ==> r == Failure(UserNotFound) && rows == old(rows)
      ensures userId in old(rows) && Truthy(email) && EmailTaken(old(rows), email.value, Some(userId)) ==>
                r == Failure(UpdateFailed) && rows == old(rows)
      ensures userId in old(rows) && !(Truthy(email) && EmailTaken(old(rows), email.value, Some(userId))) ==>
                var row := Patched(old(rows)[userId], name, email, password, file);
                r == Success(ProfileOf(row)) && rows == old(rows)[userId := row]
    {
      if userId !in rows {
        return Failure(UserNotFound);
      }
      var user := rows[userId];
      user := user.(name := if Truthy(name) then name.value else user.name);
      user := user.(email := if Truthy(email) then email.value else user.email);
      user := user.(password := if Truthy(password) then Hash(password.value) else user.password);
      user := user.(image := if file.Some? then UploadDir + file.value else user.image);
      if Truthy(email) && EmailTaken(rows, email.value, Some(userId)) {
        return Failure(UpdateFailed);
      }
      assert user == Patched(rows[userId], name, email, password, file);
      PatchedWellFormed(rows[userId], name, email, password, file);
      assert user.email == rows[userId].email || !EmailTaken(rows, user.email, Some(userId));
      RewriteKeepsInvariant(rows, nextId, userId, user);
      rows := rows[userId := user];
      r := Success(ProfileOf(user));
    }

    /**
     * `changePassword`: an unknown user first (404), then missing fields (400), then a wrong current
     * password (401); on success only the digest changes.
     */
    method ChangePassword(userId: UserId, oldPassword: Option<string>, newPassword: Option<string>)
      returns (r: Result<(), AuthError>)
      requires Valid()
      modifies this
      ensures Valid() && nextId == old(nextId)
      ensures userId !in old(rows) ==> r == Failure(UserNotFound) && rows == old(rows)
      ensures userId in old(rows) && !(Truthy(oldPassword) && Truthy(newPassword)) ==>
                r == Failure(PasswordsMissing) && rows == old(rows)
      ensures userId in old(rows) && Truthy(oldPassword) && Truthy(newPassword) ==>
                if Compare(oldPassword.value, old(rows)[userId].password)
                then r == Success(()) && rows == old(rows)[userId := WithPassword(old(rows)[userId], newPassword.value)]
                else r == Failure(WrongCurrentPassword) && rows == old(rows)
    {
      if userId !in rows {
        return Failure(UserNotFound);
      }
      if !Truthy(oldPassword) || !Truthy(newPassword) {
        return Failure(PasswordsMissing);
      }
      var user := rows[userId];
      if !Compare(oldPassword.value, user.password) {
        return Failure(WrongCurrentPassword);
      }
      user := user.(password := Hash(newPassword.value));
      WithPasswordWellFormed(rows[userId], newPassword.value);
      RewriteKeepsInvariant(rows, nextId, userId, user);
      rows := rows[userId := user];
      r := Success(());
    }
  }
}
