/**
 * The authentication controller: six request handlers over the user collection.
 *
 * Each handler is given twice. A `...Step` function states what the handler does to a
 * store snapshot and what it answers; its contract is the handler's specification. The
 * class `Controller` holds the collection and has one method per handler, written the way
 * the handler works (look a record up, assign its fields, save it back), each proved to
 * perform exactly its step.
 */
module AuthController {
  import opened Wrappers
  import opened Encoding
  import opened Bcrypt
  import opened UserModel

  /** Lifetime of a verification code: 24 hours, in milliseconds. */
  const VerificationTokenLifetime: int := 24 * 60 * 60 * 1000
  /** Lifetime of a reset token: 1 hour, in milliseconds. */
  const ResetTokenLifetime: int := 1 * 60 * 60 * 1000

  const AllFieldsRequired := "All fields are required"
  const UserAlreadyExists := "User already exists"
  const UserCreated := "User created successfully"
  const InvalidVerificationCode := "Invalid or expired verification code"
  const EmailVerified := "Email verified successfully"
  const ServerError := "server error"
  const InvalidCredentials := "Invalid credentials"
  const LoggedIn := "logged in successfully"
  const LoggedOut := "Logged out successfully"
  const InvalidEmail := "Invaild email"
  const ResetLinkSent := "Password reset link sent to your email"
  const InvalidResetToken := "Invalid or expired reset token"
  const PasswordResetDone := "Password reset successfully"
  const UserNotFound := "User not found"
  /** The rejection bcryptjs.hash gives for an absent password. */
  const HashIllegalArguments := "Illegal arguments: undefined, number"

  /** What the handler does to the session cookie. */
  datatype Cookie = Untouched | SetSession(id: UserId) | Cleared

  /** The HTTP status and JSON body of a reply, and the cookie action taken with it. */
  datatype Response = Response(status: int, success: bool, message: Option<string>, user: Option<PublicUser>, cookie: Cookie)

  datatype Outcome = Outcome(response: Response, store: Store)

  function Failure(status: int, message: string): Response {
    Response(status, false, Some(message), None, Untouched)
  }

  /** JavaScript truthiness of a request field that is a string or absent. */
  predicate Present(field: Option<string>) {
    field.Some? && field.value != ""
  }

  ghost predicate EmailTaken(s: Store, email: string) {
    AnySatisfies(s, ByEmail(email))
  }

  ghost predicate CredentialsValid(s: Store, email: string, password: string) {
    exists id :: id in s.users && s.users[id].email == email && Matches(password, s.users[id].password)
  }

  /** No record is added or removed, and every record other than `id` is as it was. */
  ghost predicate OnlyRecordChanged(before: Store, after: Store, id: UserId) {
    after.nextId == before.nextId && id in before.users &&
    after.users.Keys == before.users.Keys &&
    forall j :: j in before.users && j != id ==> after.users[j] == before.users[j]
  }

  lemma SaveKeepsWellFormed(s: Store, id: UserId, u: User)
    requires WellFormed(s) && id in s.users
    requires u.email == s.users[id].email && TokensPaired(u)
    ensures WellFormed(s.(users := s.users[id := u]))
    ensures OnlyRecordChanged(s, s.(users := s.users[id := u]), id)
  {
  }

  // ---------------------------------------------------------------- signup

  ghost predicate SignedUp(s: Store, r: Outcome, email: string, password: string, name: string, draw: nat, now: int) {
    var id := s.nextId;
    id !in s.users && r.store.nextId == id + 1 &&
    r.store.users.Keys == s.users.Keys + {id} &&
    (forall j :: j in s.users ==> r.store.users[j] == s.users[j]) &&
    var u := r.store.users[id];
    u.email == email && u.name == name && u.password == Hash(password) && !u.isVerified &&
    u.verificationToken == Some(DecimalString(100000 + draw)) &&
    IsVerificationCode(u.verificationToken.value) &&
    u.verificationTokenExpiresAt == Some(now + VerificationTokenLifetime) &&
    u.resetPasswordToken.None? && u.resetPasswordExpiresAt.None? && u.lastlogin.None? &&
    r.response == Response(201, true, Some(UserCreated), Some(Sanitize(id, u)), SetSession(id))
  }

  /** `draw` is floor(Math.random() * 900000); `now` is Date.now(). */
  function SignupStep(s: Store, email: Option<string>, password: Option<string>, name: Option<string>,
                      draw: nat, now: int): (r: Outcome)
    requires WellFormed(s)
    requires draw < 900000
    ensures WellFormed(r.store)
    ensures !(Present(email) && Present(password) && Present(name)) ==>
              r == Outcome(Failure(400, AllFieldsRequired), s)
    ensures Present(email) && Present(password) && Present(name) && EmailTaken(s, email.value) ==>
              r == Outcome(Failure(400, UserAlreadyExists), s)
    ensures r.response.success <==>
              Present(email) && Present(password) && Present(name) && !EmailTaken(s, email.value)
    ensures r.response.success ==>
              Present(email) && Present(password) && Present(name) &&
              SignedUp(s, r, email.value, password.value, name.value, draw, now)
  {
    if !(Present(email) && Present(password) && Present(name)) then
      Outcome(Failure(400, AllFieldsRequired), s)
    else
      LookupFinds(s, ByEmail(email.value));
      if Lookup(s, ByEmail(email.value)).Some? then
        Outcome(Failure(400, UserAlreadyExists), s)
      else
        var code := DecimalString(100000 + draw);
        SixDigitCode(100000 + draw);
        var u := User(email.value, Hash(password.value), name.value, false,
                      Some(code), Some(now + VerificationTokenLifetime), None, None, None);
        var id := s.nextId;
        Outcome(Response(201, true, Some(UserCreated), Some(Sanitize(id, u)), SetSession(id)),
                Store(s.users[id := u], s.nextId + 1))
  }

  // ---------------------------------------------------------------- verifyEmail

  ghost predicate EmailVerifiedAt(s: Store, r: Outcome, id: UserId, welcomeMailFails: bool) {
    OnlyRecordChanged(s, r.store, id) &&
    r.store.users[id] == s.users[id].(isVerified := true, verificationToken := None, verificationTokenExpiresAt := None) &&
    r.response == if welcomeMailFails then Failure(500, ServerError)
                  else Response(200, true, Some(EmailVerified), Some(Sanitize(id, r.store.users[id])), Untouched)
  }

  /** `welcomeMailFails` is the outcome of the awaited welcome email, sent after the record is saved. */
  function VerifyEmailStep(s: Store, code: string, now: int, welcomeMailFails: bool): (r: Outcome)
    requires WellFormed(s)
    ensures WellFormed(r.store)
    ensures !AnySatisfies(s, ByVerificationCode(code, now)) ==>
              r == Outcome(Failure(400, InvalidVerificationCode), s)
    ensures r.response.success <==> AnySatisfies(s, ByVerificationCode(code, now)) && !welcomeMailFails
    ensures AnySatisfies(s, ByVerificationCode(code, now)) ==>
              var found := Lookup(s, ByVerificationCode(code, now));
              found.Some? && EmailVerifiedAt(s, r, found.value, welcomeMailFails)
  {
    LookupFinds(s, ByVerificationCode(code, now));
    match Lookup(s, ByVerificationCode(code, now))
    case None => Outcome(Failure(400, InvalidVerificationCode), s)
    case Some(id) =>
      var u := s.users[id].(isVerified := true, verificationToken := None, verificationTokenExpiresAt := None);
      SaveKeepsWellFormed(s, id, u);
      var saved := s.(users := s.users[id := u]);
      if welcomeMailFails then Outcome(Failure(500, ServerError), saved)
      else Outcome(Response(200, true, Some(EmailVerified), Some(Sanitize(id, u)), Untouched), saved)
  }

  // ---------------------------------------------------------------- login

  ghost predicate LoggedInAt(s: Store, r: Outcome, id: UserId, now: int) {
    OnlyRecordChanged(s, r.store, id) &&
    r.store.users[id] == s.users[id].(lastlogin := Some(now)) &&
    r.response == Response(200, true, Some(LoggedIn), Some(Sanitize(id, r.store.users[id])), SetSession(id))
  }

  function LoginStep(s: Store, email: Option<string>, password: Option<string>, now: int): (r: Outcome)
    requires WellFormed(s)
    ensures WellFormed(r.store)
    ensures !(Present(email) && Present(password)) ==> r == Outcome(Failure(400, AllFieldsRequired), s)
    ensures Present(email) && Present(password) && !CredentialsValid(s, email.value, password.value) ==>
              r == Outcome(Failure(400, InvalidCredentials), s)
    ensures r.response.success <==>
              Present(email) && Present(password) && CredentialsValid(s, email.value, password.value)
    ensures r.response.success ==>
              Present(email) &&
              var found := Lookup(s, ByEmail(email.value));
              found.Some? && LoggedInAt(s, r, found.value, now)
  {
    if !(Present(email) && Present(password)) then
      Outcome(Failure(400, AllFieldsRequired), s)
    else
      match Lookup(s, ByEmail(email.value))
      case None => Outcome(Failure(400, InvalidCredentials), s)
      case Some(id) =>
        if !Matches(password.value, s.users[id].password) then
          assert forall j :: j in s.users && s.users[j].email == email.value ==> j == id;
          Outcome(Failure(400, InvalidCredentials), s)
        else
          var u := s.users[id].(lastlogin := Some(now));
          SaveKeepsWellFormed(s, id, u);
          Outcome(Response(200, true, Some(LoggedIn), Some(Sanitize(id, u)), SetSession(id)),
                  s.(users := s.users[id := u]))
  }

  // ---------------------------------------------------------------- forgotPassword

  ghost predicate ResetIssued(s: Store, r: Outcome, id: UserId, token: string, now: int) {
    OnlyRecordChanged(s, r.store, id) &&
    IsResetToken(token) &&
    r.store.users[id] == s.users[id].(resetPasswordToken := Some(token), resetPasswordExpiresAt := Some(now + ResetTokenLifetime)) &&
    r.response == Response(200, true, Some(ResetLinkSent), None, Untouched)
  }

  /** `randomBytes` is crypto.randomBytes(20). */
  function ForgotPasswordStep(s: Store, email: Option<string>, randomBytes: seq<byte>, now: int): (r: Outcome)
    requires WellFormed(s)
    requires |randomBytes| == 20
    ensures WellFormed(r.store)
    ensures !Present(email) ==> r == Outcome(Failure(400, AllFieldsRequired), s)
    ensures Present(email) && !EmailTaken(s, email.value) ==> r == Outcome(Failure(400, InvalidEmail), s)
    ensures r.response.success <==> Present(email) && EmailTaken(s, email.value)
    ensures r.response.success ==>
              Present(email) &&
              var found := Lookup(s, ByEmail(email.value));
              found.Some? && s.users[found.value].email == email.value &&
              ResetIssued(s, r, found.value, HexEncode(randomBytes), now)
  {
    if !Present(email) then
      Outcome(Failure(400, AllFieldsRequired), s)
    else
      LookupFinds(s, ByEmail(email.value));
      match Lookup(s, ByEmail(email.value))
      case None => Outcome(Failure(400, InvalidEmail), s)
      case Some(id) =>
        var token := HexEncode(randomBytes);
        var u := s.users[id].(resetPasswordToken := Some(token), resetPasswordExpiresAt := Some(now + ResetTokenLifetime));
        SaveKeepsWellFormed(s, id, u);
        Outcome(Response(200, true, Some(ResetLinkSent), None, Untouched), s.(users := s.users[id := u]))
  }

  // ---------------------------------------------------------------- resetPassword

  ghost predicate PasswordReplaced(s: Store, r: Outcome, id: UserId, password: string) {
    OnlyRecordChanged(s, r.store, id) &&
    r.store.users[id] == s.users[id].(password := Hash(password), resetPasswordToken := None, resetPasswordExpiresAt := None) &&
    r.response == Response(200, true, Some(PasswordResetDone), None, Untouched)
  }

  /** `token` is the path parameter, `password` the body field. */
  function ResetPasswordStep(s: Store, token: string, password: Option<string>, now: int): (r: Outcome)
    requires WellFormed(s)
    ensures WellFormed(r.store)
    ensures !AnySatisfies(s, ByResetToken(token, now)) ==> r == Outcome(Failure(400, InvalidResetToken), s)
    ensures AnySatisfies(s, ByResetToken(token, now)) && password.None? ==>
              r == Outcome(Failure(400, HashIllegalArguments), s)
    ensures r.response.success <==> AnySatisfies(s, ByResetToken(token, now)) && password.Some?
    ensures r.response.success ==>
              password.Some? &&
              var found := Lookup(s, ByResetToken(token, now));
              found.Some? && PasswordReplaced(s, r, found.value, password.value)
  {
    LookupFinds(s, ByResetToken(token, now));
    match Lookup(s, ByResetToken(token, now))
    case None => Outcome(Failure(400, InvalidResetToken), s)
    case Some(id) =>
      if password.None? then Outcome(Failure(400, HashIllegalArguments), s)
      else
        var u := s.users[id].(password := Hash(password.value), resetPasswordToken := None, resetPasswordExpiresAt := None);
        SaveKeepsWellFormed(s, id, u);
        Outcome(Response(200, true, Some(PasswordResetDone), None, Untouched), s.(users := s.users[id := u]))
  }

  // ---------------------------------------------------------------- the controller

  class Controller {
    var users: map<UserId, User>
    var nextId: UserId

    function Snapshot(): Store
      reads this
    {
      Store(users, nextId)
    }

    ghost predicate Valid()
      reads this
    {
      WellFormed(Snapshot())
    }

    constructor ()
      ensures Valid() && users == map[] && nextId == 0
    {
      users := map[];
      nextId := 0;
    }

    method Signup(email: Option<string>, password: Option<string>, name: Option<string>, draw: nat, now: int)
      returns (resp: Response)
      requires Valid()
      requires draw < 900000
      modifies this
      ensures Valid()
      ensures Outcome(resp, Snapshot()) == SignupStep(old(Snapshot()), email, password, name, draw, now)
    {
      if !Present(email) || !Present(password) || !Present(name) {
        return Failure(400, AllFieldsRequired);
      }
      var userAlreadyExists := FindOne(users, ByEmail(email.value), nextId);
      if userAlreadyExists.Some? {
        return Failure(400, UserAlreadyExists);
      }
      var hashedPassword := Hash(password.value);
      var verificationToken := DecimalString(100000 + draw);
      var user := User(email.value, hashedPassword, name.value, false,
                       Some(verificationToken), Some(now + VerificationTokenLifetime), None, None, None);
      var id := nextId;
      users := users[id := user];
      nextId := nextId + 1;
      resp := Response(201, true, Some(UserCreated), Some(Sanitize(id, user)), SetSession(id));
    }

    method VerifyEmail(code: string, now: int, welcomeMailFails: bool) returns (resp: Response)
      requires Valid()
      modifies this
      ensures Valid()
      ensures Outcome(resp, Snapshot()) == VerifyEmailStep(old(Snapshot()), code, now, welcomeMailFails)
    {
      var found := FindOne(users, ByVerificationCode(code, now), nextId);
      if found.None? {
        return Failure(400, InvalidVerificationCode);
      }
      var id := found.value;
      var user := users[id];
      user := user.(isVerified := true);
      user := user.(verificationToken := None);
      user := user.(verificationTokenExpiresAt := None);
      users := users[id := user];
      if welcomeMailFails {
        return Failure(500, ServerError);
      }
      resp := Response(200, true, Some(EmailVerified), Some(Sanitize(id, user)), Untouched);
    }

    method Login(email: Option<string>, password: Option<string>, now: int) returns (resp: Response)
      requires Valid()
      modifies this
      ensures Valid()
      ensures Outcome(resp, Snapshot()) == LoginStep(old(Snapshot()), email, password, now)
    {
      if !Present(email) || !Present(password) {
        return Failure(400, AllFieldsRequired);
      }
      var found := FindOne(users, ByEmail(email.value), nextId);
      if found.None? {
        return Failure(400, InvalidCredentials);
      }
      var id := found.value;
      var user := users[id];
      var isPasswordValid := Matches(password.value, user.password);
      if !isPasswordValid {
        return Failure(400, InvalidCredentials);
      }
      user := user.(lastlogin := Some(now));
      users := users[id := user];
      resp := Response(200, true, Some(LoggedIn), Some(Sanitize(id, user)), SetSession(id));
    }

    method Logout() returns (resp: Response)
      ensures resp.status == 200 && resp.success && resp.cookie == Cleared
      ensures resp.message == Some(LoggedOut) && resp.user.None?
    {
      resp := Response(200, true, Some(LoggedOut), None, Cleared);
    }

    method ForgotPassword(email: Option<string>, randomBytes: seq<byte>, now: int) returns (resp: Response)
      requires Valid()
      requires |randomBytes| == 20
      modifies this
      ensures Valid()
      ensures Outcome(resp, Snapshot()) == ForgotPasswordStep(old(Snapshot()), email, randomBytes, now)
    {
      if !Present(email) {
        return Failure(400, AllFieldsRequired);
      }
      var found := FindOne(users, ByEmail(email.value), nextId);
      if found.None? {
        return Failure(400, InvalidEmail);
      }
      var id := found.value;
      var resetToken := HexEncode(randomBytes);
      var resetTokenExpiresAt := now + ResetTokenLifetime;
      var user := users[id];
      user := user.(resetPasswordToken := Some(resetToken));
      user := user.(resetPasswordExpiresAt := Some(resetTokenExpiresAt));
      users := users[id := user];
      resp := Response(200, true, Some(ResetLinkSent), None, Untouched);
    }

    method ResetPassword(token: string, password: Option<string>, now: int) returns (resp: Response)
      requires Valid()
      modifies this
      ensures Valid()
      ensures Outcome(resp, Snapshot()) == ResetPasswordStep(old(Snapshot()), token, password, now)
    {
      var found := FindOne(users, ByResetToken(token, now), nextId);
      if found.None? {
        return Failure(400, InvalidResetToken);
      }
      if password.None? {
        return Failure(400, HashIllegalArguments);
      }
      var id := found.value;
      var hashedPassword := Hash(password.value);
      var user := users[id];
      user := user.(password := hashedPassword);
      user := user.(resetPasswordToken := None);
      user := user.(resetPasswordExpiresAt := None);
      users := users[id := user];
      resp := Response(200, true, Some(PasswordResetDone), None, Untouched);
    }

    /** `userId` is the identity the session middleware extracted from the cookie. */
    method CheckAuth(userId: UserId) returns (resp: Response)
      ensures resp.success <==> userId in users
      ensures userId in users ==> resp == Response(200, true, None, Some(Sanitize(userId, users[userId])), Untouched)
      ensures userId !in users ==> resp == Failure(400, UserNotFound)
    {
      if userId !in users {
        return Failure(400, UserNotFound);
      }
      resp := Response(200, true, None, Some(Sanitize(userId, users[userId])), Untouched);
    }
  }
}
