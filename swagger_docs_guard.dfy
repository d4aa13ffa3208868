/**
 * The Basic-auth closure that protects `/docs` in backend/src/main.ts
 * (lines 13-33). It decides exactly as the client middleware does, but
 * tells a missing header apart from wrong credentials in its reply.
 */
module SwaggerDocsGuard {
  import opened Wrappers
  import opened Strings
  import opened BasicAuth
  import DocsMiddleware

  /** `next()`, or a 401 with its body and `WWW-Authenticate` header. */
  datatype Outcome = CallNext | Deny(status: int, body: string, wwwAuthenticate: string)

  const AuthenticationRequired := "Authentication required"
  const AccessDenied := "Access denied"

  /** The closure, for a request whose `authorization` header is `authHeader`. */
  function Guard(authHeader: Option<string>, swaggerUser: Option<string>, swaggerPassword: Option<string>,
                 decode: Decoder): (r: Outcome)
    ensures authHeader.None? || !StartsWith(authHeader.value, Scheme) ==>
      r == Deny(401, AuthenticationRequired, Challenge)
    ensures authHeader.Some? && StartsWith(authHeader.value, Scheme) ==>
      (r == CallNext || r == Deny(401, AccessDenied, Challenge))
  {
    var user := EnvOr(swaggerUser, DefaultUser);
    var pass := EnvOr(swaggerPassword, DefaultPassword);
    if authHeader.None? || authHeader.value == "" || !StartsWith(authHeader.value, Scheme) then
      Deny(401, AuthenticationRequired, Challenge)
    else
      match decode(EncodedPart(authHeader.value))
      case None => Deny(401, AccessDenied, Challenge)
      case Some(decoded) =>
        var c := SplitCredentials(decoded);
        if c.user == user && c.pass == pass then CallNext else Deny(401, AccessDenied, Challenge)
  }

  /** `next()` is called exactly when the decoded text splits into the expected user and password. */
  lemma NextIff(header: string, swaggerUser: Option<string>, swaggerPassword: Option<string>, decode: Decoder)
    requires StartsWith(header, Scheme)
    ensures Guard(Some(header), swaggerUser, swaggerPassword, decode).CallNext? <==>
      (decode(EncodedPart(header)).Some?
       && SplitCredentials(decode(EncodedPart(header)).value)
          == Credentials(EnvOr(swaggerUser, DefaultUser), EnvOr(swaggerPassword, DefaultPassword)))
  {
  }

  /** Sending exactly the expected user-id and password is accepted, when the user-id has no colon. */
  lemma ExpectedGranted(header: string, swaggerUser: Option<string>, swaggerPassword: Option<string>, decode: Decoder)
    requires StartsWith(header, Scheme) && ':' !in EnvOr(swaggerUser, DefaultUser)
    requires decode(EncodedPart(header)) == Some(EnvOr(swaggerUser, DefaultUser) + ":" + EnvOr(swaggerPassword, DefaultPassword))
    ensures Guard(Some(header), swaggerUser, swaggerPassword, decode) == CallNext
  {
    SplitJoined(EnvOr(swaggerUser, DefaultUser), EnvOr(swaggerPassword, DefaultPassword));
  }

  /** Unset or empty variables fall back to the built-in credentials `chat2mail` / `a8a8a8a8`. */
  lemma {:induction false} DefaultsApply(header: string, decode: Decoder)
    requires StartsWith(header, Scheme) && decode(EncodedPart(header)) == Some(DefaultUser + ":" + DefaultPassword)
    ensures Guard(Some(header), None, None, decode) == CallNext
    ensures Guard(Some(header), Some(""), Some(""), decode) == CallNext
  {
    assert ':' !in DefaultUser;
    assert Guard(Some(header), None, None, decode) == CallNext by {
      ExpectedGranted(header, None, None, decode);
    }
    assert Guard(Some(header), Some(""), Some(""), decode) == CallNext by {
      ExpectedGranted(header, Some(""), Some(""), decode);
    }
  }

  /** The server closure lets through exactly the `/docs` requests the client middleware lets through. */
  lemma SameDecisionAsClient(pathname: string, authHeader: Option<string>, swaggerUser: Option<string>,
                             swaggerPassword: Option<string>, decode: Decoder)
    requires StartsWith(pathname, "/docs")
    ensures Guard(authHeader, swaggerUser, swaggerPassword, decode).CallNext? <==>
      DocsMiddleware.Middleware(pathname, authHeader, DocsMiddleware.Env(swaggerUser, swaggerPassword), decode).Next?
  {
  }
}
