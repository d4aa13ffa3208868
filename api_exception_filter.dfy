/**
 * `ApiExceptionFilter.catch` (backend/src/api-response/api-exception.filter.ts):
 * every exception that leaves a handler becomes a failure envelope with a
 * status code; only HTTP exceptions contribute their own text.
 */
module ApiExceptionFilter {
  import opened Strings
  import opened Http
  import opened JsValue
  import PrismaExceptions

  /** The `message` field of an exception's response object. */
  datatype MessageField = NoMessage | One(text: string) | Many(parts: seq<string>)

  /** `exception.getResponse()`: a string, or an object with an optional `message`. */
  datatype ExceptionResponse = Text(text: string) | Body(message: MessageField)

  /** What the filter catches: an `HttpException`, or anything else. */
  datatype Caught =
    | HttpError(status: int, response: ExceptionResponse, message: string)
    | Unexpected(thrown: Value)

  /** The status set on the reply and its JSON body `{success, statusCode, error}`. */
  datatype Reply = Reply(status: int, success: bool, statusCode: int, error: string)

  const InternalErrorStatus := 500
  const GenericError := "Something went wrong"

  /** The `message` derivation of lines 22-27. */
  function ErrorText(response: ExceptionResponse, fallback: string): (r: string)
    ensures response.Text? ==> r == response.text
    ensures response.Body? && response.message.Many? ==> r == Join(response.message.parts, ", ")
    ensures response.Body? && response.message.One? && response.message.text != "" ==> r == response.message.text
    ensures response.Body? && (response.message.NoMessage? || response.message == One("")) ==> r == fallback
    ensures response.Body? && !response.message.Many? && fallback != "" ==> r != ""
  {
    match response
    case Text(t) => t
    case Body(Many(parts)) => Join(parts, ", ")
    case Body(One(t)) => if t != "" then t else fallback
    case Body(NoMessage) => fallback
  }

  function Catch(ex: Caught): (r: Reply)
    ensures !r.success && r.status == r.statusCode
    ensures ex.HttpError? ==> r.status == ex.status && r.error == ErrorText(ex.response, ex.message)
    ensures ex.Unexpected? ==> r == Reply(InternalErrorStatus, false, InternalErrorStatus, GenericError)
  {
    match ex
    case HttpError(status, response, message) =>
      Reply(status, false, status, ErrorText(response, message))
    case Unexpected(_) =>
      Reply(InternalErrorStatus, false, InternalErrorStatus, GenericError)
  }

  /** A string response body is the error text, unchanged. */
  lemma TextResponseVerbatim(status: int, text: string, message: string)
    ensures Catch(HttpError(status, Text(text), message)).error == text
  {
  }

  /** A list of messages (validation errors) is joined with ", ". */
  lemma ManyMessagesJoined(status: int, parts: seq<string>, message: string)
    ensures Catch(HttpError(status, Body(Many(parts)), message)).error == Join(parts, ", ")
  {
  }

  /** A non-empty `message` of the response object is the error text. */
  lemma OwnMessageUsed(status: int, text: string, message: string)
    requires text != ""
    ensures Catch(HttpError(status, Body(One(text)), message)).error == text
  {
  }

  /** A missing or empty `message` falls back to the exception's own message. */
  lemma MissingMessageFallsBack(status: int, field: MessageField, message: string)
    requires field == NoMessage || field == One("")
    ensures Catch(HttpError(status, Body(field), message)).error == message
  {
  }

  /** Nothing about an unexpected exception reaches the client. */
  lemma UnexpectedLeaksNothing(v1: Value, v2: Value)
    ensures Catch(Unexpected(v1)) == Catch(Unexpected(v2))
  {
  }

  /**
   * A built-in exception created with a message, as the services throw
   * them: its status is its kind's, its response is
   * `{statusCode, message, error}`, and its own message is that message.
   */
  function FromException(e: HttpException): Caught {
    HttpError(Status(e.kind), Body(One(e.message)), e.message)
  }

  /** A built-in exception reaches the client with its kind's status and its own message. */
  lemma BuiltInExceptionReply(e: HttpException)
    ensures Catch(FromException(e)) == Reply(Status(e.kind), false, Status(e.kind), e.message)
  {
  }

  /** A database failure mapped by `mapPrismaError` reaches the client as 409, 503 or 500. */
  lemma DatabaseFailureReply(err: PrismaExceptions.PrismaError)
    ensures Catch(FromException(PrismaExceptions.MapPrismaError(err))).status in {409, 503, 500}
  {
  }
}
