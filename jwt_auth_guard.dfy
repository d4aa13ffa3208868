/**
 * `JwtAuthGuard.canActivate` (backend/src/auth/guards/jwt-auth.guard.ts):
 * the request must carry `Authorization: Bearer <token>` (section 2.1 of
 * RFC 6750) and the token must verify; the verified payload is then stored
 * on the request as `req.user`. Token verification is a parameter.
 */
module JwtAuthGuard {
  import opened Wrappers
  import opened Strings
  import opened Http
  import opened JsValue

  /** A header value as Node.js delivers it: one string, or several. */
  datatype HeaderValue = Single(text: string) | Multiple(items: seq<string>)

  /** `jwt.verify(token)`: the payload, or `None` when verification throws. */
  type Verifier = string -> Option<Value>

  const BearerScheme := "Bearer"
  const LowerCaseScheme := "bearer"
  const MissingHeader := "Missing Authorization header"
  const InvalidFormat := "Invalid Authorization format"
  const InvalidToken := "Invalid or expired token"

  predicate TruthyHeader(h: Option<HeaderValue>) {
    h.Some? && (h.value.Single? ==> h.value.text != "")
  }

  /** `req.headers['authorization'] || req.headers['Authorization']` */
  function AuthorizationHeader(headers: map<string, HeaderValue>): (r: Option<HeaderValue>)
    ensures TruthyHeader(r) <==>
      TruthyHeader(if "authorization" in headers then Some(headers["authorization"]) else None)
      || TruthyHeader(if "Authorization" in headers then Some(headers["Authorization"]) else None)
    ensures "authorization" in headers && TruthyHeader(Some(headers["authorization"])) ==>
      r == Some(headers["authorization"])
    ensures !TruthyHeader(if "authorization" in headers then Some(headers["authorization"]) else None) ==>
      r == (if "Authorization" in headers then Some(headers["Authorization"]) else None)
  {
    var lower := if "authorization" in headers then Some(headers["authorization"]) else None;
    if TruthyHeader(lower) then lower
    else if "Authorization" in headers then Some(headers["Authorization"])
    else None
  }

  /** Lines 16-22: the token of a well-formed Bearer header. */
  function BearerToken(header: Option<HeaderValue>): (r: Result<string, HttpException>)
    ensures !TruthyHeader(header) || header.value.Multiple? ==>
      r == Err(HttpException(Unauthorized, MissingHeader))
    ensures r.Ok? ==> r.value != "" && ' ' !in r.value
    ensures r.Err? ==> r.error.kind == Unauthorized && r.error.message in {MissingHeader, InvalidFormat}
    ensures TruthyHeader(header) && header.value.Single? && r.Err? ==> r.error.message == InvalidFormat
  {
    if !TruthyHeader(header) || !header.value.Single? then Err(HttpException(Unauthorized, MissingHeader))
    else
      var parts := Split(header.value.text, ' ');
      var scheme := parts[0];
      var token := if |parts| > 1 then parts[1] else "";
      if scheme != BearerScheme || token == "" then Err(HttpException(Unauthorized, InvalidFormat))
      else Ok(token)
  }

  /** `text` is `a`, one space, `b`, and then nothing or more text after a space. */
  predicate SpaceSeparated(text: string, a: string, b: string, rest: string) {
    text == a + " " + b + rest && (rest == [] || rest[0] == ' ')
  }

  /** The first two pieces of `a b…` where neither `a` nor `b` has a space. */
  lemma FirstTwoPieces(a: string, b: string, rest: string)
    requires ' ' !in a && ' ' !in b && (rest == [] || rest[0] == ' ')
    ensures var parts := Split(a + " " + b + rest, ' ');
      |parts| > 1 && parts[0] == a && parts[1] == b
  {
    var t := b + rest;
    var text := a + " " + b + rest;
    assert text == a + " " + t;
    SplitAfterSpace(a, t);
    FirstPieceBeforeSpace(b, rest);
    var parts := Split(text, ' ');
    assert parts == [a] + Split(t, ' ');
    assert parts[1] == Split(t, ' ')[0];
  }

  lemma SplitAfterSpace(a: string, t: string)
    requires ' ' !in a
    ensures Split(a + " " + t, ' ') == [a] + Split(t, ' ')
  {
    assert a + " " + t == a + [' '] + t;
    SplitAfter(a, ' ', t);
  }

  lemma FirstPieceBeforeSpace(b: string, rest: string)
    requires ' ' !in b && (rest == [] || rest[0] == ' ')
    ensures Split(b + rest, ' ')[0] == b
  {
    if rest == [] {
      assert b + rest == b;
      SplitNone(b, ' ');
    } else {
      assert b + rest == b + [' '] + rest[1..];
      SplitAfter(b, ' ', rest[1..]);
    }
  }

  /** A `Bearer ` header whose token has no space is accepted, whatever follows after one more space. */
  lemma {:induction false} BearerAccepted(token: string, rest: string)
    requires token != "" && ' ' !in token && (rest == [] || rest[0] == ' ')
    ensures BearerToken(Some(Single(BearerScheme + " " + token + rest))) == Ok(token)
  {
    assert ' ' !in BearerScheme;
    FirstTwoPieces(BearerScheme, token, rest);
  }

  /** A string whose split has two pieces begins with those pieces and one space between them. */
  lemma {:induction false} ShapeOfTwoPieces(text: string)
    requires |Split(text, ' ')| > 1
    ensures exists rest :: SpaceSeparated(text, Split(text, ' ')[0], Split(text, ' ')[1], rest)
  {
    SplitSecond(text, ' ');
    SplitHead(text, ' ');
    var i := IndexOf(text, ' ');
    var rest := FirstPieceAndRest(text[i + 1..]);
    Glue(text, i, Split(text, ' ')[1], rest);
  }

  /** What follows the first piece of `s` is empty or starts with a space. */
  lemma FirstPieceAndRest(s: string) returns (rest: string)
    ensures s == Split(s, ' ')[0] + rest && (rest == [] || rest[0] == ' ')
  {
    var j := IndexOf(s, ' ');
    var head := Split(s, ' ')[0];
    if j < 0 {
      assert head == s by { SplitHead(s, ' '); }
      rest := [];
      assert s == head + rest;
    } else {
      assert head == s[..j] by { SplitHead(s, ' '); }
      rest := s[j..];
      assert s == head + rest;
    }
  }

  lemma Glue(text: string, i: nat, b: string, rest: string)
    requires i < |text| && text[i] == ' '
    requires text[i + 1..] == b + rest && (rest == [] || rest[0] == ' ')
    ensures SpaceSeparated(text, text[..i], b, rest)
  {
    assert text == text[..i] + [' '] + text[i + 1..];
  }

  /** Only such headers are accepted: the converse of `BearerAccepted`. */
  lemma {:induction false} OnlyBearerAccepted(text: string)
    requires BearerToken(Some(Single(text))).Ok?
    ensures exists rest :: SpaceSeparated(text, BearerScheme, BearerToken(Some(Single(text))).value, rest)
  {
    ShapeOfTwoPieces(text);
  }

  /** A doubled space leaves the second piece empty, so the header is refused. */
  lemma DoubleSpaceRefused(token: string)
    ensures BearerToken(Some(Single(BearerScheme + "  " + token))) == Err(HttpException(Unauthorized, InvalidFormat))
  {
    assert ' ' !in BearerScheme;
    assert BearerScheme + "  " + token == BearerScheme + " " + "" + (" " + token);
    FirstTwoPieces(BearerScheme, "", " " + token);
  }

  /** Any other first piece is refused. */
  lemma OtherSchemeRefused(scheme: string, token: string, rest: string)
    requires ' ' !in scheme && scheme != BearerScheme && ' ' !in token && (rest == [] || rest[0] == ' ')
    ensures BearerToken(Some(Single(scheme + " " + token + rest))) == Err(HttpException(Unauthorized, InvalidFormat))
  {
    FirstTwoPieces(scheme, token, rest);
  }

  /** The scheme is compared case-sensitively: `bearer` is refused. */
  lemma LowerCaseSchemeRefused(token: string, rest: string)
    requires ' ' !in token && (rest == [] || rest[0] == ' ')
    ensures BearerToken(Some(Single(LowerCaseScheme + " " + token + rest))).Err?
  {
    assert LowerCaseScheme[0] != BearerScheme[0];
    assert ' ' !in LowerCaseScheme;
    OtherSchemeRefused(LowerCaseScheme, token, rest);
  }

  /** Pieces after the second are ignored: `Bearer a b` gives the token `a`. */
  lemma ExtraPiecesIgnored(token: string, extra: string)
    requires token != "" && ' ' !in token
    ensures BearerToken(Some(Single(BearerScheme + " " + token + " " + extra))) == Ok(token)
  {
    BearerAccepted(token, " " + extra);
    assert BearerScheme + " " + token + " " + extra == BearerScheme + " " + token + (" " + extra);
  }

  /** The incoming request: its headers, and the `user` field the guard writes. */
  class Request {
    const headers: map<string, HeaderValue>
    var user: Option<Value>

    constructor(headers: map<string, HeaderValue>)
      ensures this.headers == headers && user.None?
    {
      this.headers := headers;
      user := None;
    }
  }

  /**
   * `canActivate`: `Ok(true)` lets the request through, `Err` is the
   * exception thrown. The guard never answers `false`.
   */
  method CanActivate(req: Request, verify: Verifier) returns (r: Result<bool, HttpException>)
    modifies req
    ensures r.Ok? ==> r.value
    ensures r.Ok? <==>
      BearerToken(AuthorizationHeader(req.headers)).Ok?
      && verify(BearerToken(AuthorizationHeader(req.headers)).value).Some?
    ensures r.Ok? ==> req.user == verify(BearerToken(AuthorizationHeader(req.headers)).value)
    ensures BearerToken(AuthorizationHeader(req.headers)).Err? ==>
      r == Err(BearerToken(AuthorizationHeader(req.headers)).error)
    ensures BearerToken(AuthorizationHeader(req.headers)).Ok?
            && verify(BearerToken(AuthorizationHeader(req.headers)).value).None? ==>
      r == Err(HttpException(Unauthorized, InvalidToken))
    ensures r.Err? ==> req.user == old(req.user)
  {
    var token := BearerToken(AuthorizationHeader(req.headers));
    if token.Err? {
      return Err(token.error);
    }
    var payload := verify(token.value);
    if payload.None? {
      return Err(HttpException(Unauthorized, InvalidToken));
    }
    req.user := payload;
    return Ok(true);
  }
}
