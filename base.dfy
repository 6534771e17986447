/** Shared vocabulary of the model: optional values, results, HTTP responses,
    the outcome of a `fetch` call, and the abstract view of the service-account
    configuration and of `JSON.parse` on it. */
module Base {

  datatype Option<+T> = None | Some(value: T) {
    function GetOr(default: T): T {
      match this
      case Some(v) => v
      case None => default
    }
  }

  datatype Result<+R, +E> = Ok(value: R) | Err(error: E)

  /** A JSON response as a route hands it to the framework: the HTTP status and
      the body object (each route has its own body shape). */
  datatype Response<+B> = Response(status: int, body: B)

  /** `response.ok` of the Fetch standard: a status in the range 200-299. */
  predicate IsOk(status: int) {
    200 <= status <= 299
  }

  /** What an awaited `fetch(...)` followed by `response.json()` yields: the
      parsed reply, or the message of the error it threw. */
  datatype Fetched<+T> = Received(response: T) | Thrown(message: string)

  /** JavaScript truthiness of a `string | null | undefined` value. */
  predicate Truthy(s: Option<string>) {
    s.Some? && s.value != ""
  }

  /** Reading the environment variable that holds the service-account key:
      the value (None when unset), or an exception raised before the key is
      examined. */
  datatype KeyRead = Read(key: Option<string>) | ReadThrew

  /** The outcome of `JSON.parse` on the key, as far as the routes look at it:
      not JSON at all, the JSON literal `null`, or some other JSON value whose
      `client_email` property is given (None when it has none). */
  datatype ParsedKey = NotJson | JsonNull | JsonValue(clientEmail: Option<string>)

  /** The decimal rendering of an integer, as a template literal prints it. */
  function IntToString(n: int): (s: string)
    ensures |s| > 0
    decreases if n < 0 then 1 - n else n
  {
    if n < 0 then "-" + IntToString(-n)
    else if n < 10 then [DigitChar(n)]
    else IntToString(n / 10) + [DigitChar(n % 10)]
  }

  function DigitChar(d: int): char
    requires 0 <= d < 10
  {
    "0123456789"[d]
  }

  /** The part of `s` between `prefix` and `suffix`, when `s` has that shape. */
  function Between(s: string, prefix: string, suffix: string): (r: Option<string>)
    ensures r.Some? ==> s == prefix + r.value + suffix
  {
    if |prefix| + |suffix| <= |s| && s[..|prefix|] == prefix && s[|s| - |suffix|..] == suffix
    then Some(s[|prefix|..|s| - |suffix|])
    else None
  }

  lemma BetweenOfConcat(prefix: string, x: string, suffix: string)
    ensures Between(prefix + x + suffix, prefix, suffix) == Some(x)
  {
    var s := prefix + x + suffix;
    assert s[..|prefix|] == prefix;
    assert s[|s| - |suffix|..] == suffix;
    assert s[|prefix|..|s| - |suffix|] == x;
  }
}
