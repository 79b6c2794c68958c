/** src/graphql/resolvers/userResolver.ts: `register`, `login`, `resendOtp` and `deleteUserByEmail`
    over the users table. What `login` does to one user record is the pure `LoginStep`; the
    lemmas below follow a record through several calls. */
module UserResolver {
  import opened Wrappers
  import opened Errors
  import opened Passwords
  import opened AuthUtils
  import opened Store

  /** `RegisterUserInput` from src/types/types.ts. */
  datatype RegisterUserInput = RegisterUserInput(name: string, email: string, password: string)

  /** The record `register` creates: unverified, holding a hash of the password (never the
      plaintext), the code just mailed and an expiry thirty minutes from `now`. */
  function NewUser(id: int, userData: RegisterUserInput, otp: string, salt: nat, now: int): (u: User)
    ensures u.id == id && u.name == userData.name && u.email == userData.email
    ensures Compare(userData.password, u.password) && u.password.salt == salt
    ensures !u.isVerified && u.otp == Some(otp) && u.otpExpiresAt == Some(now + OtpLifetimeMs)
    ensures u.phone.None? && u.address.None?
    ensures OtpPaired(u)
  {
    User(id, userData.name, userData.email, Hash(userData.password, salt), None, None, false,
         Some(otp), Some(now + OtpLifetimeMs))
  }

  /** A record after a fresh code is issued at `now`: the code and its expiry change, nothing else. */
  function WithFreshOtp(u: User, otp: string, now: int): (v: User)
    ensures v.otp == Some(otp) && v.otpExpiresAt == Some(now + OtpLifetimeMs)
    ensures v.(otp := u.otp, otpExpiresAt := u.otpExpiresAt) == u
    ensures OtpPaired(v)
  {
    u.(otp := Some(otp), otpExpiresAt := Some(now + OtpLifetimeMs))
  }

  /** The `loggedInUser` payload built from a stored record. */
  function PayloadOf(u: User): UserPayload {
    UserPayload(u.id, u.name, u.email, u.phone, u.address, u.isVerified)
  }

  /** What one `login` call does to the user's record: the record afterwards, whether a fresh code
      was mailed, and the token or the error. */
  datatype LoginOutcome = LoginOutcome(user: User, mailsOtp: bool, result: Result<SignedToken>)

  /** `login` on an existing record. An unverified user who gives no code gets a fresh code mailed,
      which is not stored, and EMAIL_NOT_VERIFIED. A code, when given, is checked first (verified
      users included) and on success marks the user verified without clearing it; only then is the
      password compared. */
  function LoginStep(u: User, password: string, otp: Option<string>, now: int): (o: LoginOutcome)
    ensures o.user.(isVerified := u.isVerified) == u
    ensures o.user.otp == u.otp && o.user.otpExpiresAt == u.otpExpiresAt
    ensures o.mailsOtp <==> !u.isVerified && !TruthyString(otp)
    ensures o.mailsOtp ==> o.user == u && o.result == Err(EmailNotVerified)
    ensures TruthyString(otp) ==>
              var check := VerifyOtp(otp.value, u.otp, u.otpExpiresAt, now);
              (check.Fail? ==> o == LoginOutcome(u, false, Err(check.code)))
              && (check.Pass? ==> o.user == u.(isVerified := true))
    ensures !TruthyString(otp) ==> o.user == u
    ensures o.result.Ok? <==>
              (u.isVerified || TruthyString(otp))
              && (TruthyString(otp) ==> VerifyOtp(otp.value, u.otp, u.otpExpiresAt, now).Pass?)
              && Compare(password, u.password)
    ensures o.result.Ok? ==> o.user.isVerified && o.result.value == GenerateToken(PayloadOf(u))
    ensures !o.mailsOtp && (TruthyString(otp) ==> VerifyOtp(otp.value, u.otp, u.otpExpiresAt, now).Pass?)
              && !Compare(password, u.password)
            ==> o.result == Err(InvalidCredentials)
  {
    if !u.isVerified && !TruthyString(otp) then
      LoginOutcome(u, true, Err(EmailNotVerified))
    else
      var check := if TruthyString(otp) then VerifyOtp(otp.value, u.otp, u.otpExpiresAt, now) else Pass;
      if check.Fail? then
        LoginOutcome(u, false, Err(check.code))
      else
        var verified := if TruthyString(otp) then u.(isVerified := true) else u;
        if !Compare(password, u.password) then
          LoginOutcome(verified, false, Err(InvalidCredentials))
        else
          LoginOutcome(verified, false, Ok(GenerateToken(PayloadOf(u))))
  }

  /** `register(userData)` with the three random bytes of its code, the bcrypt salt and the clock. */
  method Register(
    db: Database, outbox: Outbox, userData: RegisterUserInput, random: seq<Byte>, salt: nat, now: int)
    returns (r: Result<User>)
    requires db.Valid() && |random| == OtpByteCount
    modifies db`users, db`nextUserId, outbox`sent
    ensures db.Valid()
    ensures userData.email in old(db.users) ==>
              r == Err(EmailTaken) && db.users == old(db.users) && db.nextUserId == old(db.nextUserId)
              && outbox.sent == old(outbox.sent)
    ensures userData.email !in old(db.users) ==>
              r == Ok(NewUser(old(db.nextUserId), userData, OtpCode(random), salt, now))
              && db.users == old(db.users)[userData.email := r.value]
              && db.nextUserId == old(db.nextUserId) + 1
              && outbox.sent == old(outbox.sent) + [VerificationMail(userData.email, OtpCode(random))]
  {
    if userData.email in db.users {
      return Err(EmailTaken);
    }
    var otp := SendOtp(outbox, userData.email, random);
    var user := NewUser(db.nextUserId, userData, otp, salt, now);
    db.users := db.users[userData.email := user];
    db.nextUserId := db.nextUserId + 1;
    return Ok(user);
  }

  /** `login(email, password, otp?)` at time `now`, with the random bytes of the code it may mail. */
  method Login(
    db: Database, outbox: Outbox, email: string, password: string, otp: Option<string>,
    random: seq<Byte>, now: int)
    returns (r: Result<SignedToken>)
    requires db.Valid() && |random| == OtpByteCount
    modifies db`users, outbox`sent
    ensures db.Valid()
    ensures email !in old(db.users) ==>
              r == Err(UserNotFound) && db.users == old(db.users) && outbox.sent == old(outbox.sent)
    ensures email in old(db.users) ==>
              var o := LoginStep(old(db.users)[email], password, otp, now);
              r == o.result && db.users == old(db.users)[email := o.user]
              && outbox.sent == old(outbox.sent) + (if o.mailsOtp then [VerificationMail(email, OtpCode(random))] else [])
  {
    if email !in db.users {
      return Err(UserNotFound);
    }
    var user := db.users[email];
    if !user.isVerified && !TruthyString(otp) {
      var mailed := SendOtp(outbox, email, random);
      return Err(EmailNotVerified);
    }
    if TruthyString(otp) {
      var check := VerifyOtp(otp.value, user.otp, user.otpExpiresAt, now);
      if check.Fail? {
        return Err(check.code);
      }
      db.users := db.users[email := db.users[email].(isVerified := true)];
    }
    if !Compare(password, user.password) {
      return Err(InvalidCredentials);
    }
    var loggedInUser := UserPayload(user.id, user.name, user.email, user.phone, user.address, user.isVerified);
    return Ok(GenerateToken(loggedInUser));
  }

  /** `deleteUserByEmail(email)`: removes the record and returns it; the join-table rows of its
      favourites go with it. */
  method DeleteUserByEmail(db: Database, email: string) returns (r: Result<User>)
    requires db.Valid()
    modifies db`users, db`favourites
    ensures db.Valid()
    ensures email !in old(db.users) ==>
              r == Err(UserNotFound) && db.users == old(db.users) && db.favourites == old(db.favourites)
    ensures email in old(db.users) ==>
              r == Ok(old(db.users)[email]) && db.users == old(db.users) - {email}
              && db.favourites == set f | f in old(db.favourites) && f.userId != r.value.id
  {
    if email !in db.users {
      return Err(UserNotFound);
    }
    var user := db.users[email];
    db.users := db.users - {email};
    db.favourites := set f | f in db.favourites && f.userId != user.id;
    return Ok(user);
  }

  /** `resendOtp(email)`: only for an existing unverified user; stores and mails a fresh code. */
  method ResendOtp(db: Database, outbox: Outbox, email: string, random: seq<Byte>, now: int)
    returns (r: Result<bool>)
    requires db.Valid() && |random| == OtpByteCount
    modifies db`users, outbox`sent
    ensures db.Valid()
    ensures email !in old(db.users) || old(db.users)[email].isVerified ==>
              r == Err(UserError) && db.users == old(db.users) && outbox.sent == old(outbox.sent)
    ensures email in old(db.users) && !old(db.users)[email].isVerified ==>
              r == Ok(true)
              && db.users == old(db.users)[email := WithFreshOtp(old(db.users)[email], OtpCode(random), now)]
              && outbox.sent == old(outbox.sent) + [VerificationMail(email, OtpCode(random))]
  {
    if email !in db.users || db.users[email].isVerified {
      return Err(UserError);
    }
    var otp := SendOtp(outbox, email, random);
    db.users := db.users[email := WithFreshOtp(db.users[email], otp, now)];
    return Ok(true);
  }

  /** A verified user who gives no code and the right password gets a token built from the stored
      record, and the record is left as it was. */
  lemma VerifiedLoginWithoutOtp(u: User, password: string, otp: Option<string>, now: int)
    requires u.isVerified && !TruthyString(otp) && Compare(password, u.password)
    ensures LoginStep(u, password, otp, now) == LoginOutcome(u, false, Ok(GenerateToken(PayloadOf(u))))
  {
  }

  /** A correct code with a wrong password still marks the user verified, then fails with
      INVALID_CREDENTIALS. */
  lemma VerificationSurvivesWrongPassword(u: User, password: string, code: string, now: int)
    requires code != "" && VerifyOtp(code, u.otp, u.otpExpiresAt, now).Pass?
    requires !Compare(password, u.password)
    ensures LoginStep(u, password, Some(code), now) == LoginOutcome(u.(isVerified := true), false, Err(InvalidCredentials))
  {
  }

  /** Login never clears the code: a code that logged a user in logs them in again, at any time up
      to its expiry. */
  lemma OtpReplayedUntilExpiry(u: User, password: string, code: string, now: int, later: int)
    requires LoginStep(u, password, Some(code), now).result.Ok?
    requires u.otpExpiresAt.Some? && later <= u.otpExpiresAt.value
    ensures LoginStep(LoginStep(u, password, Some(code), now).user, password, Some(code), later).result.Ok?
  {
  }

  /** The code mailed by a login refused with EMAIL_NOT_VERIFIED is never stored, so it opens the
      account only if it happens to equal the code already stored. */
  lemma RefusedLoginCodeIsUseless(u: User, password: string, random: seq<Byte>, now: int, later: int)
    requires |random| == OtpByteCount
    requires LoginStep(u, password, None, now).mailsOtp
    requires u.otp != Some(OtpCode(random))
    ensures LoginStep(LoginStep(u, password, None, now).user, password, Some(OtpCode(random)), later).result.Err?
  {
  }

  /** Issuing a code to an unverified user and logging in with it in time, with the right
      password, verifies the user and yields their token. */
  lemma IssuedCodeVerifies(u: User, password: string, random: seq<Byte>, issuedAt: int, now: int)
    requires |random| == OtpByteCount
    requires Compare(password, u.password)
    requires issuedAt <= now <= issuedAt + OtpLifetimeMs
    ensures var v := WithFreshOtp(u, OtpCode(random), issuedAt);
            LoginStep(v, password, Some(OtpCode(random)), now)
              == LoginOutcome(v.(isVerified := true), false, Ok(GenerateToken(PayloadOf(v))))
  {
  }
}
