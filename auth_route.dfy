/** The service-account authentication route (`POST /api/google-drive/auth`).
    It checks that the service-account key is configured and parses as JSON,
    builds the claim set of a JWT bearer assertion (iss, scope, aud, exp, iat,
    in the profile of RFC 7523 section 3) and answers with a fixed placeholder
    token shaped like an RFC 6749 section 5.1 token response. The assertion is
    neither signed nor exchanged. */
module AuthRoute {

  import opened Base

  const MissingKeyMessage: string :=
    "請在環境變數中設定 GOOGLE_SERVICE_ACCOUNT_KEY。請將 Service Account 的 JSON 憑證內容設定為此環境變數。"
  const InvalidKeyMessage: string :=
    "Service Account 憑證格式無效。請確認 GOOGLE_SERVICE_ACCOUNT_KEY 環境變數包含有效的 JSON 格式憑證。"
  const AuthFailedMessage: string := "Service account authentication failed"
  const PlaceholderToken: string := "service_account_token_placeholder"
  const DriveReadonlyScope: string := "https://www.googleapis.com/auth/drive.readonly"
  const TokenEndpoint: string := "https://oauth2.googleapis.com/token"
  /** Lifetime of the assertion and of the advertised token, in seconds. */
  const TokenLifetime: int := 3600

  /** The JWT claim set (RFC 7519 section 4.1); `iss` is absent when the
      credentials have no `client_email`. */
  datatype Claims = Claims(iss: Option<string>, scope: string, aud: string, exp: int, iat: int)

  /** The JSON body of the response: a token response or an error object. */
  datatype AuthBody =
    | TokenGrant(accessToken: string, tokenType: string, expiresIn: int)
    | AuthError(error: string)

  type AuthResponse = Response<AuthBody>

  /** The claims for credentials with this `client_email` at `nowMs`
      milliseconds since the epoch: issued at the current whole second, valid
      for one hour. */
  function ClaimsFor(clientEmail: Option<string>, nowMs: int): (c: Claims)
    ensures c.iat * 1000 <= nowMs < c.iat * 1000 + 1000
    ensures c.exp - c.iat == TokenLifetime
    ensures c.iss == clientEmail && c.scope == DriveReadonlyScope && c.aud == TokenEndpoint
  {
    var now := nowMs / 1000;
    Claims(clientEmail, DriveReadonlyScope, TokenEndpoint, now + TokenLifetime, now)
  }

  /** The response of the route. `read` is the environment read of the key,
      `parse` stands for `JSON.parse`, `nowMs` for `Date.now()`. Reading
      `client_email` of the JSON value `null` throws, which the inner handler
      reports as an invalid key. */
  function AuthPost(read: KeyRead, parse: string -> ParsedKey, nowMs: int): (r: AuthResponse)
    ensures r.status == 200 || r.status == 400 || r.status == 500
    ensures r.status == 200 <==> r.body.TokenGrant?
    ensures r.body.TokenGrant? ==> r.body == TokenGrant(PlaceholderToken, "Bearer", TokenLifetime)
    ensures r.body.AuthError? ==> r.body.error in {MissingKeyMessage, InvalidKeyMessage, AuthFailedMessage}
  {
    match read
    case ReadThrew => Response(500, AuthError(AuthFailedMessage))
    case Read(key) =>
      if !Truthy(key) then Response(400, AuthError(MissingKeyMessage))
      else
        match parse(key.value)
        case NotJson => Response(400, AuthError(InvalidKeyMessage))
        case JsonNull => Response(400, AuthError(InvalidKeyMessage))
        case JsonValue(clientEmail) =>
          var claims := ClaimsFor(clientEmail, nowMs);
          Response(200, TokenGrant(PlaceholderToken, "Bearer", TokenLifetime))
  }

  /** A missing or empty key is rejected with 400 and the configuration
      message, whatever the parser would say. */
  lemma MissingKeyRejected(key: Option<string>, parse: string -> ParsedKey, nowMs: int)
    requires !Truthy(key)
    ensures AuthPost(Read(key), parse, nowMs) == Response(400, AuthError(MissingKeyMessage))
  {
  }

  /** A key that does not parse (or parses to `null`) is rejected with 400 and
      the invalid-format message, which differs from the missing-key one. */
  lemma InvalidKeyRejected(key: string, parse: string -> ParsedKey, nowMs: int)
    requires key != "" && !parse(key).JsonValue?
    ensures AuthPost(Read(Some(key)), parse, nowMs) == Response(400, AuthError(InvalidKeyMessage))
    ensures InvalidKeyMessage != MissingKeyMessage
  {
  }

  /** A parseable key yields the placeholder grant, independently of the
      credential contents and of the clock. */
  lemma PlaceholderGrant(key: string, parse: string -> ParsedKey, nowMs: int,
                         key': string, parse': string -> ParsedKey, nowMs': int)
    requires key != "" && parse(key).JsonValue?
    requires key' != "" && parse'(key').JsonValue?
    ensures AuthPost(Read(Some(key)), parse, nowMs) == Response(200, TokenGrant(PlaceholderToken, "Bearer", 3600))
    ensures AuthPost(Read(Some(key)), parse, nowMs) == AuthPost(Read(Some(key')), parse', nowMs')
  {
  }

  /** The advertised `expires_in` equals the lifetime `exp - iat` of the
      claims built for the same request. */
  lemma ExpiresInMatchesClaims(key: string, parse: string -> ParsedKey, nowMs: int)
    requires key != "" && parse(key).JsonValue?
    ensures var r := AuthPost(Read(Some(key)), parse, nowMs);
            var c := ClaimsFor(parse(key).clientEmail, nowMs);
            r.body.TokenGrant? && r.body.expiresIn == c.exp - c.iat
  {
  }

  /** An exception before the key is examined gives 500 with the fixed message. */
  lemma UnexpectedFailure(parse: string -> ParsedKey, nowMs: int)
    ensures AuthPost(ReadThrew, parse, nowMs) == Response(500, AuthError(AuthFailedMessage))
  {
  }

  /** The route succeeds exactly when the key is present and parses to a
      non-null JSON value. */
  lemma AuthSucceedsExactly(read: KeyRead, parse: string -> ParsedKey, nowMs: int)
    ensures AuthPost(read, parse, nowMs).status == 200
            <==> read.Read? && Truthy(read.key) && parse(read.key.value).JsonValue?
    ensures AuthPost(read, parse, nowMs).status == 200 <==> AuthPost(read, parse, nowMs).body.TokenGrant?
  {
  }
}
