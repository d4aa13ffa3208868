/**
 * `mapPrismaError` (backend/src/prisma/prisma-exceptions.ts): turns
 * whatever a database call threw into one of three HTTP exceptions, first
 * by the error code, then by tests on the message and the error's name.
 */
module PrismaExceptions {
  import opened Wrappers
  import opened Strings
  import opened Http

  /** What a database call may throw: `null`/`undefined`, or an object with optional fields. */
  datatype PrismaError =
    | Nullish
    | Thrown(code: Option<string>, message: Option<string>, name: Option<string>)

  const EmailInUse := "Email already in use"
  const DatabaseUnavailable := "Database is not available"
  const SomethingWentWrong := "Something went wrong"

  /** The codes that mean the database cannot be reached. */
  const UnavailableCodes: set<string> := {"P1000", "P1001", "P1008", "P1017"}

  /** The message fragments that mean the database cannot be reached. */
  const UnavailableFragments: seq<string> :=
    ["ECONNREFUSED", "getaddrinfo", "Query engine library", "Unable to load"]

  /** `e?.code` */
  function CodeOf(e: PrismaError): Option<string> {
    if e.Thrown? then e.code else None
  }

  /** `e?.message || ''` */
  function MessageOf(e: PrismaError): string {
    if e.Thrown? && e.message.Some? then e.message.value else ""
  }

  /** `e?.name === 'PrismaClientInitializationError'` */
  predicate IsInitializationError(e: PrismaError) {
    e.Thrown? && e.name == Some("PrismaClientInitializationError")
  }

  /** The network-like test of lines 27-33. */
  predicate LooksUnreachable(e: PrismaError) {
    var msg := MessageOf(e);
    Contains(msg, "ECONNREFUSED") || Contains(msg, "getaddrinfo") || IsInitializationError(e)
    || Contains(msg, "Query engine library") || Contains(msg, "Unable to load")
  }

  /** A code that the `switch` of lines 14-24 decides on. */
  predicate IsRecognisedCode(code: Option<string>) {
    code == Some("P2002") || (code.Some? && code.value in UnavailableCodes)
  }

  function MapPrismaError(e: PrismaError): (r: HttpException)
    ensures r.kind in {Conflict, ServiceUnavailable, InternalServerError}
    ensures r.kind == Conflict <==> CodeOf(e) == Some("P2002")
    ensures r.kind == ServiceUnavailable <==>
      CodeOf(e) != Some("P2002") && (IsRecognisedCode(CodeOf(e)) || LooksUnreachable(e))
    ensures r.kind == Conflict ==> r.message == EmailInUse
    ensures r.kind == ServiceUnavailable ==> r.message == DatabaseUnavailable
    ensures r.kind == InternalServerError ==> r.message == SomethingWentWrong
  {
    var code := CodeOf(e);
    if code == Some("P2002") then HttpException(Conflict, EmailInUse)
    else if code.Some? && code.value in UnavailableCodes then HttpException(ServiceUnavailable, DatabaseUnavailable)
    else if LooksUnreachable(e) then HttpException(ServiceUnavailable, DatabaseUnavailable)
    else HttpException(InternalServerError, SomethingWentWrong)
  }

  /** A recognised code decides the result: the message and the name are never looked at. */
  lemma CodeDecidesFirst(e1: PrismaError, e2: PrismaError)
    requires CodeOf(e1) == CodeOf(e2) && IsRecognisedCode(CodeOf(e1))
    ensures MapPrismaError(e1) == MapPrismaError(e2)
  {
  }

  /**
   * Without a recognised code, a message containing any of the four
   * fragments means the database is unavailable.
   */
  lemma FragmentMeansUnavailable(e: PrismaError, k: nat)
    requires !IsRecognisedCode(CodeOf(e))
    requires k < |UnavailableFragments| && Contains(MessageOf(e), UnavailableFragments[k])
    ensures MapPrismaError(e) == HttpException(ServiceUnavailable, DatabaseUnavailable)
  {
  }

  /** `null`, `undefined`, and an error without code, message or name are all internal errors. */
  lemma NullishIsInternal(name: Option<string>)
    requires name != Some("PrismaClientInitializationError")
    ensures MapPrismaError(Nullish) == HttpException(InternalServerError, SomethingWentWrong)
    ensures MapPrismaError(Thrown(None, None, name)) == HttpException(InternalServerError, SomethingWentWrong)
    ensures MapPrismaError(Thrown(None, Some(""), name)) == HttpException(InternalServerError, SomethingWentWrong)
  {
    assert !Contains("", "ECONNREFUSED") by { assert !OccursAt("", "ECONNREFUSED", 0); }
  }
}
