/** Optional values and JavaScript truthiness of the nullable arguments the resolvers receive. */
module Wrappers {

  /** A nullable value: GraphQL `null` and an omitted argument (`undefined`) are both `None`. */
  datatype Option<+T> = None | Some(value: T) {

    /** The value, or `default` when absent: JavaScript's `value ?? default`. */
    function GetOr(default: T): T {
      if Some? then value else default
    }
  }

  /** `if (s)` on a `string | null | undefined`: false for null, undefined and the empty string. */
  predicate TruthyString(s: Option<string>) {
    s.Some? && s.value != ""
  }

  /** `if (n)` on a `number | null | undefined` holding an integer: false for null, undefined and 0. */
  predicate TruthyInt(n: Option<int>) {
    n.Some? && n.value != 0
  }

  /** `if (x)` on a GraphQL Float: false for null, undefined and 0. */
  predicate TruthyReal(x: Option<real>) {
    x.Some? && x.value != 0.0
  }
}

/** The error codes the resolvers put in a GraphQLError's `extensions.code`, and the results that carry them. */
module Errors {

  /** Exceptions raised by the ORM itself (record missing on update/delete/connect, unique or foreign key violation). */
  datatype OrmFailure = RecordNotFound | UniqueConstraint | ForeignKeyConstraint

  datatype ErrorCode =
    | EmailTaken
    | UserNotFound
    | EmailNotVerified
    | ExpiredOtp
    | InvalidOtp
    | InvalidCredentials
    | UserError
    | InvalidPassword
    | TokenMissing
    | InvalidToken
    | InvalidInput
    | InternalServerError
    | FurnitureNotFound
    | CategoryNotFound
    | OrderNotFound
      /** An ORM exception that no resolver catches; it reaches the client without one of the codes above. */
    | Orm(failure: OrmFailure)

  /** The value a resolver resolves to, or the error it throws. */
  datatype Result<+T> = Ok(value: T) | Err(code: ErrorCode)

  /** A check that returns nothing or throws. */
  datatype Outcome = Pass | Fail(code: ErrorCode)

  /** A resolver body wrapped in `try { ... } catch (err) { throw new GraphQLError(..., { extensions: { code } }) }`:
      whatever the body threw, including a GraphQLError with its own code, leaves with `code`. */
  function Rethrow<T>(body: Result<T>, code: ErrorCode): (r: Result<T>)
    ensures body.Ok? ==> r == body
    ensures body.Err? ==> r == Err(code)
  {
    if body.Ok? then body else Err(code)
  }
}
