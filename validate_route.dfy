/** The validation route (`GET /api/google-drive/validate`): the service-account
    configuration is "valid" when the key is set and parses as JSON. Nothing
    inside the credentials is looked at and the identity provider is not
    consulted. */
module ValidateRoute {

  import opened Base
  import AuthRoute

  const ValidationFailedMessage: string := "Token validation failed"

  /** The JSON body: `{valid}` or an error object. */
  datatype ValidateBody = Validity(valid: bool) | ValidateError(error: string)

  type ValidateResponse = Response<ValidateBody>

  /** The response of the route; `parse` stands for `JSON.parse`. */
  function ValidateGet(read: KeyRead, parse: string -> ParsedKey): (r: ValidateResponse)
    ensures r.body.Validity? <==> read.Read?
    ensures r.status == 200 <==> r.body == Validity(true)
    ensures r.body == Validity(false) ==> r.status == 400 || r.status == 401
  {
    match read
    case ReadThrew => Response(500, ValidateError(ValidationFailedMessage))
    case Read(key) =>
      if !Truthy(key) then Response(401, Validity(false))
      else if parse(key.value).NotJson? then Response(400, Validity(false))
      else Response(200, Validity(true))
  }

  /** The three answers when the key could be read, and the 500 otherwise. */
  lemma ValidateCases(read: KeyRead, parse: string -> ParsedKey)
    ensures read.Read? && !Truthy(read.key) ==> ValidateGet(read, parse) == Response(401, Validity(false))
    ensures read.Read? && Truthy(read.key) && parse(read.key.value).NotJson? ==>
              ValidateGet(read, parse) == Response(400, Validity(false))
    ensures read.Read? && Truthy(read.key) && !parse(read.key.value).NotJson? ==>
              ValidateGet(read, parse) == Response(200, Validity(true))
    ensures read.ReadThrew? ==> ValidateGet(read, parse) == Response(500, ValidateError(ValidationFailedMessage))
  {
  }

  /** `valid` is true exactly when the key is present and parses; the status
      is then the only OK one. The credential fields are never consulted: two
      parsers that agree on whether the key is JSON give the same answer. */
  lemma ValidExactly(read: KeyRead, parse: string -> ParsedKey, parse': string -> ParsedKey)
    ensures ValidateGet(read, parse).body == Validity(true)
            <==> read.Read? && Truthy(read.key) && !parse(read.key.value).NotJson?
    ensures IsOk(ValidateGet(read, parse).status) <==> ValidateGet(read, parse).body == Validity(true)
    ensures read.Read? && Truthy(read.key) && (parse(read.key.value).NotJson? <==> parse'(read.key.value).NotJson?)
            ==> ValidateGet(read, parse) == ValidateGet(read, parse')
  {
  }

  /** Validation and authentication agree, for every key that does not parse
      to the JSON value `null`: the configuration is reported valid exactly
      when the auth route grants a token. */
  lemma ValidMeansAuthSucceeds(read: KeyRead, parse: string -> ParsedKey, nowMs: int)
    requires read.Read? && Truthy(read.key) ==> !parse(read.key.value).JsonNull?
    ensures ValidateGet(read, parse).body == Validity(true)
            <==> AuthRoute.AuthPost(read, parse, nowMs).status == 200
  {
    AuthRoute.AuthSucceedsExactly(read, parse, nowMs);
  }

  /** The exception: a key that parses to `null` is reported valid, but the
      auth route rejects it as malformed (reading a property of `null` throws). */
  lemma NullKeyDisagrees(key: string, parse: string -> ParsedKey, nowMs: int)
    requires key != "" && parse(key) == JsonNull
    ensures ValidateGet(Read(Some(key)), parse) == Response(200, Validity(true))
    ensures AuthRoute.AuthPost(Read(Some(key)), parse, nowMs)
            == Response(400, AuthRoute.AuthError(AuthRoute.InvalidKeyMessage))
  {
  }
}
