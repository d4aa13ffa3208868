/**
 * The HTTP exceptions of the web framework that the core throws: a kind,
 * which fixes the status code, and a message.
 */
module Http {

  datatype Kind = BadRequest | Unauthorized | Conflict | ServiceUnavailable | InternalServerError

  datatype HttpException = HttpException(kind: Kind, message: string)

  /** The status code each exception kind carries. */
  function Status(k: Kind): int {
    match k
    case BadRequest => 400
    case Unauthorized => 401
    case Conflict => 409
    case ServiceUnavailable => 503
    case InternalServerError => 500
  }
}
