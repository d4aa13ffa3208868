/**
 * HTTP Basic credentials as both `/docs` guards read them (section 2 of
 * RFC 7617): the header is `Basic <base64 of user-id:password>`, and the
 * decoded text is split at its FIRST colon, so the password may itself
 * contain colons. Base64 decoding is a parameter of the model.
 */
module BasicAuth {
  import opened Wrappers
  import opened Strings

  datatype Credentials = Credentials(user: string, pass: string)

  /**
   * `Buffer.from(text, 'base64').toString('utf8')`; `None` stands for a
   * decoding that throws.
   */
  type Decoder = string -> Option<string>

  const Scheme := "Basic "
  const Challenge := "Basic realm=\"Swagger\""
  const DefaultUser := "chat2mail"
  const DefaultPassword := "a8a8a8a8"

  /** `process.env.NAME || fallback`: an unset or empty variable gives the fallback. */
  function EnvOr(value: Option<string>, fallback: string): (r: string)
    ensures value.Some? && value.value != "" ==> r == value.value
    ensures value.None? || value.value == "" ==> r == fallback
    ensures fallback != "" ==> r != ""
  {
    if value.Some? && value.value != "" then value.value else fallback
  }

  /** `header.slice('Basic '.length).trim()` */
  function EncodedPart(header: string): string
    requires StartsWith(header, Scheme)
  {
    Trim(header[|Scheme|..])
  }

  /** Lines 11-13 of client/middleware.ts, lines 24-26 of backend/src/main.ts. */
  function SplitCredentials(decoded: string): (c: Credentials)
    ensures ':' in decoded ==> decoded == c.user + ":" + c.pass && ':' !in c.user
    ensures ':' !in decoded ==> c == Credentials("", "")
  {
    var i := IndexOf(decoded, ':');
    if i >= 0 then
      assert decoded == decoded[..i] + [decoded[i]] + decoded[i + 1..];
      Credentials(decoded[..i], decoded[i + 1..])
    else Credentials("", "")
  }

  /** Splitting inverts joining, whenever the user-id has no colon (the password may have any). */
  lemma SplitJoined(user: string, pass: string)
    requires ':' !in user
    ensures SplitCredentials(user + ":" + pass) == Credentials(user, pass)
  {
    IndexOfAfter(user, ':', pass);
    var s := user + ":" + pass;
    assert s == user + [':'] + pass;
    assert s[..|user|] == user && s[|user| + 1..] == pass;
  }

  /** Decoded text without a colon never matches non-empty expected credentials. */
  lemma NoColonNeverMatches(decoded: string, user: string, pass: string)
    requires ':' !in decoded && user != ""
    ensures SplitCredentials(decoded) != Credentials(user, pass)
  {
  }

  /** The configured credentials are never empty. */
  lemma ConfiguredNonEmpty(user: Option<string>, pass: Option<string>)
    ensures EnvOr(user, DefaultUser) != "" && EnvOr(pass, DefaultPassword) != ""
  {
  }
}
