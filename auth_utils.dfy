/** src/utils/authUtils.ts: the one-time code (`sendOtp`), its check (`verifyOtp`) and the session
    token's payload (`generateToken`). Randomness, the clock, the mail transport and the JWT signature
    are outside the model: the random bytes and the current time are parameters, sent mail is a ghost
    log, and a signed token is the claims it carries together with its lifetime. */
module AuthUtils {
  import opened Wrappers
  import opened Errors

  type Byte = b: int | 0 <= b < 256

  /** `randomBytes(3)`. */
  const OtpByteCount := 3
  /** Length of `randomBytes(3).toString("hex")`. */
  const OtpLength := 6
  /** `30 * 60 * 1000` milliseconds: how long an issued code stays valid. */
  const OtpLifetimeMs := 30 * 60 * 1000
  /** `expiresIn: "1h"`. */
  const TokenLifetimeSeconds := 60 * 60

  /** A digit of Node's "hex" encoding, which is lower case. */
  predicate IsHexDigit(c: char) {
    '0' <= c <= '9' || 'a' <= c <= 'f'
  }

  predicate IsHexString(s: string) {
    forall i | 0 <= i < |s| :: IsHexDigit(s[i])
  }

  function HexDigit(n: int): (c: char)
    requires 0 <= n < 16
    ensures IsHexDigit(c)
  {
    if n < 10 then ('0' as int + n) as char else ('a' as int + n - 10) as char
  }

  function HexValue(c: char): (n: int)
    requires IsHexDigit(c)
    ensures 0 <= n < 16
  {
    if c <= '9' then c as int - '0' as int else c as int - 'a' as int + 10
  }

  /** `Buffer.toString("hex")`: two lower-case digits per byte, high nibble first. */
  function HexEncode(bytes: seq<Byte>): (s: string)
    ensures |s| == 2 * |bytes|
    ensures IsHexString(s)
  {
    if bytes == [] then ""
    else [HexDigit(bytes[0] / 16), HexDigit(bytes[0] % 16)] + HexEncode(bytes[1..])
  }

  /** `Buffer.from(s, "hex")` on a well-formed lower-case hex string. */
  function HexDecode(s: string): (bytes: seq<Byte>)
    requires |s| % 2 == 0 && IsHexString(s)
    ensures 2 * |bytes| == |s|
  {
    if s == "" then []
    else [HexValue(s[0]) * 16 + HexValue(s[1])] + HexDecode(s[2..])
  }

  /** Hex encoding loses nothing: the bytes can be read back from the string. */
  lemma {:induction false} HexDecodeEncode(bytes: seq<Byte>)
    ensures HexDecode(HexEncode(bytes)) == bytes
  {
    if bytes != [] {
      var b := bytes[0];
      var s := HexEncode(bytes);
      assert s[2..] == HexEncode(bytes[1..]);
      assert HexValue(s[0]) == b / 16;
      assert HexValue(s[1]) == b % 16;
      HexDecodeEncode(bytes[1..]);
    }
  }

  /** The code `sendOtp` draws: `randomBytes(3).toString("hex")`, six lower-case hex digits that
      determine the three random bytes they came from. */
  function OtpCode(random: seq<Byte>): (otp: string)
    requires |random| == OtpByteCount
    ensures |otp| == OtpLength && IsHexString(otp)
    ensures HexDecode(otp) == random
  {
    HexDecodeEncode(random);
    HexEncode(random)
  }

  /** A verification mail handed to the mail transport. */
  datatype OtpMail = VerificationMail(to: string, otp: string)

  /** The mail transport as the core sees it: the log of verification mails it was given. */
  class Outbox {
    ghost var sent: seq<OtpMail>

    constructor ()
      ensures sent == []
    {
      sent := [];
    }
  }

  /** `sendOtp(email)`: draws a code from the three random bytes, mails it to `email`, returns it. */
  method SendOtp(outbox: Outbox, email: string, random: seq<Byte>) returns (otp: string)
    requires |random| == OtpByteCount
    modifies outbox`sent
    ensures otp == OtpCode(random)
    ensures outbox.sent == old(outbox.sent) + [VerificationMail(email, otp)]
  {
    otp := OtpCode(random);
    outbox.sent := outbox.sent + [VerificationMail(email, otp)];
  }

  /** The stored code can still be used at `now`: it is present and non-empty, its expiry is
      present, and `now` is not past it. */
  predicate OtpLive(userOtp: Option<string>, otpExpiresAt: Option<int>, now: int) {
    TruthyString(userOtp) && otpExpiresAt.Some? && now <= otpExpiresAt.value
  }

  /** `verifyOtp(otp, userOtp, otpExpiresAt)` at time `now` (milliseconds). It only decides; it
      changes no state. A missing, empty or expired stored code is reported before the codes are
      compared, and the comparison is exact. */
  function VerifyOtp(otp: string, userOtp: Option<string>, otpExpiresAt: Option<int>, now: int): (r: Outcome)
    ensures r == Pass <==> OtpLive(userOtp, otpExpiresAt, now) && otp == userOtp.value
    ensures r == Fail(ExpiredOtp) <==> !OtpLive(userOtp, otpExpiresAt, now)
    ensures r == Fail(InvalidOtp) <==> OtpLive(userOtp, otpExpiresAt, now) && otp != userOtp.value
  {
    if !TruthyString(userOtp) || otpExpiresAt.None? || now > otpExpiresAt.value then Fail(ExpiredOtp)
    else if otp != userOtp.value then Fail(InvalidOtp)
    else Pass
  }

  /** The expiry comparison is strict: the expiry instant itself still accepts the code, one
      millisecond later it does not. */
  lemma ExpiryInstantStillAccepted(code: string, expiresAt: int)
    requires code != ""
    ensures VerifyOtp(code, Some(code), Some(expiresAt), expiresAt) == Pass
    ensures VerifyOtp(code, Some(code), Some(expiresAt), expiresAt + 1) == Fail(ExpiredOtp)
  {
  }

  /** An expired code is refused as expired even when it matches. */
  lemma ExpiredMatchingCodeIsExpired(code: string, expiresAt: int, now: int)
    requires now > expiresAt
    ensures VerifyOtp(code, Some(code), Some(expiresAt), now) == Fail(ExpiredOtp)
  {
  }

  /** Once the stored code is cleared, no submitted code passes. */
  lemma ClearedOtpNeverPasses(code: string, now: int)
    ensures VerifyOtp(code, None, None, now) == Fail(ExpiredOtp)
  {
  }

  /** `userPayload` from src/types/types.ts. */
  datatype UserPayload = UserPayload(
    id: int, name: string, email: string, phone: Option<string>, address: Option<string>, isVerified: bool)

  /** The object `generateToken` signs. */
  datatype TokenClaims = TokenClaims(
    userId: int, email: string, name: string, phone: Option<string>, address: Option<string>)

  /** A signed JWT, as far as the model can see it: its claims and its lifetime. */
  datatype SignedToken = SignedToken(claims: TokenClaims, expiresInSeconds: int)

  /** `generateToken(user)`: signs userId, email, name, phone and address, valid for one hour;
      `isVerified` is not signed. */
  function GenerateToken(user: UserPayload): (token: SignedToken)
    ensures token.expiresInSeconds == TokenLifetimeSeconds
    ensures token.claims.userId == user.id && token.claims.email == user.email && token.claims.name == user.name
    ensures token.claims.phone == user.phone && token.claims.address == user.address
  {
    SignedToken(TokenClaims(user.id, user.email, user.name, user.phone, user.address), TokenLifetimeSeconds)
  }

  /** Two payloads give the same token exactly when they agree on everything but `isVerified`. */
  lemma TokenIgnoresOnlyVerification(u: UserPayload, v: UserPayload)
    ensures GenerateToken(u) == GenerateToken(v) <==> u.(isVerified := v.isVerified) == v
  {
  }
}
