/** src/utils/authMiddleware.ts: the `isAuthenticated` guard every protected resolver runs first.
    It takes the second space-separated word of the Authorization header as the token, asks the JWT
    verifier (foreign: a parameter here) to decode it, records the decoded claims in the request
    context and runs the wrapped resolver. */
module AuthMiddleware {
  import opened Wrappers
  import opened Errors
  import opened AuthUtils

  /** JavaScript's `s.split(sep)` for a one-character separator: every separator ends a piece, so
      there is one more piece than separators and pieces may be empty. */
  function Split(s: string, sep: char): (parts: seq<string>)
    ensures |parts| >= 1
    ensures forall i | 0 <= i < |parts| :: sep !in parts[i]
  {
    if s == "" then [""]
    else if s[0] == sep then [""] + Split(s[1..], sep)
    else
      var rest := Split(s[1..], sep);
      [[s[0]] + rest[0]] + rest[1..]
  }

  /** `parts.join(sep)`, the inverse of `Split`. */
  function Join(parts: seq<string>, sep: char): string
    requires |parts| >= 1
  {
    if |parts| == 1 then parts[0] else parts[0] + [sep] + Join(parts[1..], sep)
  }

  /** Joining the pieces gives back the string that was split. */
  lemma {:induction false} JoinSplit(s: string, sep: char)
    ensures Join(Split(s, sep), sep) == s
  {
    if s != "" {
      JoinSplit(s[1..], sep);
      var rest := Split(s[1..], sep);
      if s[0] != sep {
        if |rest| == 1 {
          assert Split(s, sep) == [[s[0]] + rest[0]];
        } else {
          assert Split(s, sep)[1..] == rest[1..];
          assert Join(Split(s, sep), sep) == [s[0]] + rest[0] + [sep] + Join(rest[1..], sep);
        }
      }
    }
  }

  /** A string without the separator splits into itself. */
  lemma {:induction false} SplitWithoutSeparator(s: string, sep: char)
    requires sep !in s
    ensures Split(s, sep) == [s]
  {
    if s != "" {
      SplitWithoutSeparator(s[1..], sep);
      assert s[0] != sep;
      assert [s[0]] + s[1..] == s;
    }
  }

  /** Splitting at the first separator: a separator-free prefix becomes the first piece. */
  lemma {:induction false} SplitAtFirstSeparator(a: string, b: string, sep: char)
    requires sep !in a
    ensures Split(a + [sep] + b, sep) == [a] + Split(b, sep)
  {
    if a != "" {
      var x := a + [sep] + b;
      assert x[0] == a[0] != sep;
      assert x[1..] == a[1..] + [sep] + b;
      SplitAtFirstSeparator(a[1..], b, sep);
      var rest := Split(x[1..], sep);
      assert rest[0] == a[1..] && rest[1..] == Split(b, sep);
      assert [x[0]] + rest[0] == a;
    } else {
      assert a + [sep] + b == [sep] + b;
    }
  }

  /** Pieces free of the separator are recovered from their join. */
  lemma {:induction false} SplitJoin(parts: seq<string>, sep: char)
    requires |parts| >= 1
    requires forall i | 0 <= i < |parts| :: sep !in parts[i]
    ensures Split(Join(parts, sep), sep) == parts
  {
    if |parts| == 1 {
      SplitWithoutSeparator(parts[0], sep);
    } else {
      SplitJoin(parts[1..], sep);
      SplitAtFirstSeparator(parts[0], Join(parts[1..], sep), sep);
    }
  }

  /** `req.headers?.authorization?.split(" ")[1]`, kept only when truthy: no header, a header with
      no space, or an empty second piece (two spaces in a row, a trailing space) give no token.
      The first word is not looked at. */
  function ExtractToken(authorization: Option<string>): (token: Option<string>)
    ensures token.Some? ==> token.value != "" && ' ' !in token.value
    ensures token.Some? <==>
              authorization.Some? && |Split(authorization.value, ' ')| >= 2 && Split(authorization.value, ' ')[1] != ""
    ensures token.Some? ==> token.value == Split(authorization.value, ' ')[1]
  {
    if authorization.None? then None
    else
      var parts := Split(authorization.value, ' ');
      if |parts| < 2 || parts[1] == "" then None else Some(parts[1])
  }

  /** `<scheme> <token>` yields the token for any space-free scheme word, "Bearer" or not. */
  lemma SchemeWordIsNotChecked(scheme: string, token: string)
    requires ' ' !in scheme && ' ' !in token && token != ""
    ensures ExtractToken(Some(scheme + " " + token)) == Some(token)
  {
    SplitAtFirstSeparator(scheme, token, ' ');
    SplitWithoutSeparator(token, ' ');
  }

  /** Two spaces after the scheme word leave an empty second piece, so no token is found. */
  lemma DoubleSpaceHidesToken(scheme: string, token: string)
    requires ' ' !in scheme
    ensures ExtractToken(Some(scheme + "  " + token)) == None
  {
    assert scheme + "  " + token == scheme + [' '] + ([' '] + token);
    SplitAtFirstSeparator(scheme, [' '] + token, ' ');
  }

  /** A header with no space at all holds no token. */
  lemma SingleWordHasNoToken(header: string)
    requires ' ' !in header
    ensures ExtractToken(Some(header)) == None
  {
    SplitWithoutSeparator(header, ' ');
  }

  /** The per-request GraphQL context; `user` is what the guard records. */
  class RequestContext {
    var user: Option<TokenClaims>

    constructor ()
      ensures user == None
    {
      user := None;
    }
  }

  /** `isAuthenticated` around a resolver `next`. `verify` is `jwt.verify` with the server's secret:
      the decoded claims, or `None` when it throws (bad signature, malformed, expired). */
  method IsAuthenticated<R>(
    context: RequestContext, authorization: Option<string>,
    verify: string -> Option<TokenClaims>, next: () -> R) returns (r: Result<R>)
    modifies context`user
    ensures ExtractToken(authorization).None? ==> r == Err(TokenMissing) && context.user == old(context.user)
    ensures ExtractToken(authorization).Some? && verify(ExtractToken(authorization).value).None? ==>
              r == Err(InvalidToken) && context.user == old(context.user)
    ensures ExtractToken(authorization).Some? && verify(ExtractToken(authorization).value).Some? ==>
              context.user == verify(ExtractToken(authorization).value) && r == Ok(next())
  {
    var token := ExtractToken(authorization);
    if token.None? {
      return Err(TokenMissing);
    }
    var decoded := verify(token.value);
    if decoded.None? {
      return Err(InvalidToken);
    }
    context.user := decoded;
    return Ok(next());
  }
}
