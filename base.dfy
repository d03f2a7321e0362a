/** Values shared by every service: optional values, the HTTP error kinds the
    services throw, and results that carry either a value or one of those errors. */
module Base {

  /** Row identifiers handed out by the relational store (bigint sequences). */
  type Id = nat

  datatype Option<+T> = None | Some(value: T) {
    /** The value, or `default` when absent (the `??` operator). */
    function GetOr(default: T): T {
      if Some? then value else default
    }
  }

  /** The Nest exceptions the services raise. A plain JavaScript error that
      escapes a handler is answered with 500, so it is InternalServerError too. */
  datatype HttpError =
    | BadRequest
    | NotFound
    | Forbidden
    | UnprocessableEntity
    | InternalServerError

  datatype Result<+T> = Ok(value: T) | Err(error: HttpError)

  /** Present and truthy: a JavaScript string that is not empty. */
  predicate Truthy(s: Option<string>) {
    s.Some? && |s.value| > 0
  }
}
