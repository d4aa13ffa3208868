/**
 * The Next.js middleware of client/middleware.ts: paths under `/docs`
 * require the Swagger Basic credentials; every other path passes.
 */
module DocsMiddleware {
  import opened Wrappers
  import opened Strings
  import opened BasicAuth

  /** `SWAGGER_USER` and `SWAGGER_PASSWORD` as read from the environment. */
  datatype Env = Env(swaggerUser: Option<string>, swaggerPassword: Option<string>)

  /** `NextResponse.next()`, or a 401 carrying a body and a `WWW-Authenticate` header. */
  datatype Response = Next | Unauthorized(status: int, body: string, wwwAuthenticate: string)

  const AuthenticationRequired := "Authentication required"

  function ExpectedUser(env: Env): string { EnvOr(env.swaggerUser, DefaultUser) }
  function ExpectedPass(env: Env): string { EnvOr(env.swaggerPassword, DefaultPassword) }

  /** `decodeBasicAuth(header)`, with `header` the `authorization` header or null. */
  function DecodeBasicAuth(header: Option<string>, decode: Decoder): (r: Option<Credentials>)
    ensures header.None? || !StartsWith(header.value, Scheme) ==> r.None?
    ensures header.Some? && StartsWith(header.value, Scheme) ==>
      (r.Some? <==> decode(EncodedPart(header.value)).Some?)
    ensures r.Some? ==>
      header.Some? && decode(EncodedPart(header.value)).Some?
      && r.value == SplitCredentials(decode(EncodedPart(header.value)).value)
  {
    if header.None? || header.value == "" || !StartsWith(header.value, Scheme) then None
    else
      match decode(EncodedPart(header.value))
      case None => None
      case Some(decoded) => Some(SplitCredentials(decoded))
  }

  /** `middleware(req)` for a request with path `pathname` and header `authorization`. */
  function Middleware(pathname: string, authorization: Option<string>, env: Env, decode: Decoder): (r: Response)
    ensures r.Next? || r == Unauthorized(401, AuthenticationRequired, Challenge)
    ensures !StartsWith(pathname, "/docs") ==> r.Next?
    ensures StartsWith(pathname, "/docs") ==>
      (r.Next? <==> DecodeBasicAuth(authorization, decode) == Some(Credentials(ExpectedUser(env), ExpectedPass(env))))
  {
    if !StartsWith(pathname, "/docs") then Next
    else
      var auth := DecodeBasicAuth(authorization, decode);
      if auth.Some? && auth.value.user == ExpectedUser(env) && auth.value.pass == ExpectedPass(env) then Next
      else Unauthorized(401, AuthenticationRequired, Challenge)
  }

  /** A missing header, or one not beginning with `Basic ` (space included), is refused on `/docs`. */
  lemma NotBasicRefused(pathname: string, authorization: Option<string>, env: Env, decode: Decoder)
    requires StartsWith(pathname, "/docs")
    requires authorization.None? || !StartsWith(authorization.value, Scheme)
    ensures Middleware(pathname, authorization, env, decode).Unauthorized?
  {
  }

  /** Access on `/docs` is granted exactly for the header that encodes the expected credentials. */
  lemma GrantedIff(pathname: string, header: string, env: Env, decode: Decoder)
    requires StartsWith(pathname, "/docs") && StartsWith(header, Scheme)
    ensures Middleware(pathname, Some(header), env, decode).Next? <==>
      (decode(EncodedPart(header)).Some?
       && SplitCredentials(decode(EncodedPart(header)).value) == Credentials(ExpectedUser(env), ExpectedPass(env)))
  {
  }

  /** The text `user:pass` decoded from the header is accepted exactly when both parts equal the expected ones. */
  lemma {:induction false} DecodedPairGranted(pathname: string, header: string, env: Env, decode: Decoder, user: string, pass: string)
    requires StartsWith(pathname, "/docs") && StartsWith(header, Scheme)
    requires ':' !in user && decode(EncodedPart(header)) == Some(user + ":" + pass)
    ensures Middleware(pathname, Some(header), env, decode).Next? <==> user == ExpectedUser(env) && pass == ExpectedPass(env)
  {
    SplitJoined(user, pass);
  }

  /** Decoded text without a colon is always refused. */
  lemma {:induction false} NoColonRefused(pathname: string, header: string, env: Env, decode: Decoder)
    requires StartsWith(pathname, "/docs") && StartsWith(header, Scheme)
    requires decode(EncodedPart(header)).Some? && ':' !in decode(EncodedPart(header)).value
    ensures Middleware(pathname, Some(header), env, decode).Unauthorized?
  {
    ConfiguredNonEmpty(env.swaggerUser, env.swaggerPassword);
    NoColonNeverMatches(decode(EncodedPart(header)).value, ExpectedUser(env), ExpectedPass(env));
  }
}
