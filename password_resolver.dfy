/** src/graphql/resolvers/passwordResolver.ts: `forgotPassword` issues a code to any existing user,
    `resetPassword` spends it on a new password. */
module PasswordResolver {
  import opened Wrappers
  import opened Errors
  import opened Passwords
  import opened AuthUtils
  import opened Store
  import opened UserResolver

  /** What `resetPassword` does to an existing record: the code is checked and, when it passes, the
      password becomes a hash of the new one and the code and its expiry are both cleared. The
      verification flag is not touched. */
  function ResetStep(u: User, otp: string, newPassword: string, salt: nat, now: int): (r: Result<User>)
    ensures VerifyOtp(otp, u.otp, u.otpExpiresAt, now).Fail? ==> r == Err(VerifyOtp(otp, u.otp, u.otpExpiresAt, now).code)
    ensures VerifyOtp(otp, u.otp, u.otpExpiresAt, now).Pass? ==>
              r.Ok? && Compare(newPassword, r.value.password) && r.value.password.salt == salt
              && r.value.otp.None? && r.value.otpExpiresAt.None?
              && r.value.(password := u.password, otp := u.otp, otpExpiresAt := u.otpExpiresAt) == u
  {
    var check := VerifyOtp(otp, u.otp, u.otpExpiresAt, now);
    if check.Fail? then Err(check.code)
    else Ok(u.(password := Hash(newPassword, salt), otp := None, otpExpiresAt := None))
  }

  /** `forgotPassword(email)`: stores and mails a fresh code whether or not the user is verified. */
  method ForgotPassword(db: Database, outbox: Outbox, email: string, random: seq<Byte>, now: int)
    returns (r: Result<bool>)
    requires db.Valid() && |random| == OtpByteCount
    modifies db`users, outbox`sent
    ensures db.Valid()
    ensures email !in old(db.users) ==>
              r == Err(UserNotFound) && db.users == old(db.users) && outbox.sent == old(outbox.sent)
    ensures email in old(db.users) ==>
              r == Ok(true)
              && db.users == old(db.users)[email := WithFreshOtp(old(db.users)[email], OtpCode(random), now)]
              && outbox.sent == old(outbox.sent) + [VerificationMail(email, OtpCode(random))]
  {
    if email !in db.users {
      return Err(UserNotFound);
    }
    var otp := SendOtp(outbox, email, random);
    db.users := db.users[email := WithFreshOtp(db.users[email], otp, now)];
    return Ok(true);
  }

  /** `resetPassword(email, otp, newPassword)` at time `now`, with the bcrypt salt. */
  method ResetPassword(db: Database, email: string, otp: string, newPassword: string, salt: nat, now: int)
    returns (r: Result<bool>)
    requires db.Valid()
    modifies db`users
    ensures db.Valid()
    ensures email !in old(db.users) ==> r == Err(UserNotFound) && db.users == old(db.users)
    ensures email in old(db.users) ==>
              var step := ResetStep(old(db.users)[email], otp, newPassword, salt, now);
              (step.Err? ==> r == Err(step.code) && db.users == old(db.users))
              && (step.Ok? ==> r == Ok(true) && db.users == old(db.users)[email := step.value])
  {
    if email !in db.users {
      return Err(UserNotFound);
    }
    var user := db.users[email];
    var check := VerifyOtp(otp, user.otp, user.otpExpiresAt, now);
    if check.Fail? {
      return Err(check.code);
    }
    var hashedPassword := Hash(newPassword, salt);
    db.users := db.users[email := user.(password := hashedPassword, otp := None, otpExpiresAt := None)];
    return Ok(true);
  }

  /** A code is spent by a successful reset: any second reset, with any code at any time, fails
      with EXPIRED_OTP. */
  lemma SecondResetFails(
    u: User, otp: string, newPassword: string, salt: nat, now: int,
    otp2: string, newPassword2: string, salt2: nat, later: int)
    requires ResetStep(u, otp, newPassword, salt, now).Ok?
    ensures ResetStep(ResetStep(u, otp, newPassword, salt, now).value, otp2, newPassword2, salt2, later) == Err(ExpiredOtp)
  {
  }

  /** A reset with an expired code fails with EXPIRED_OTP and keeps the old password. */
  lemma ExpiredResetKeepsPassword(u: User, otp: string, newPassword: string, salt: nat, now: int)
    requires u.otpExpiresAt.Some? && now > u.otpExpiresAt.value
    ensures ResetStep(u, otp, newPassword, salt, now) == Err(ExpiredOtp)
  {
  }

  /** After `forgotPassword`, the mailed code resets the password at any time up to its expiry, and
      the new password is the only one accepted. */
  lemma ForgottenPasswordCanBeReset(
    u: User, random: seq<Byte>, issuedAt: int, newPassword: string, salt: nat, now: int, other: string)
    requires |random| == OtpByteCount
    requires issuedAt <= now <= issuedAt + OtpLifetimeMs
    ensures var step := ResetStep(WithFreshOtp(u, OtpCode(random), issuedAt), OtpCode(random), newPassword, salt, now);
            step.Ok? && (Compare(other, step.value.password) <==> other == newPassword)
  {
  }
}
