/** Values shared by the session layer and the HTTP client: optional values,
    results, the requests the client sends, the replies the network gives back
    and the errors the layer raises. */
module Http {

  datatype Option<+T> = None | Some(value: T)

  datatype Result<+T, +E> = Ok(value: T) | Err(error: E)

  /** The request methods the client uses; `fetch` sends GET when none is given. */
  datatype Method = GET | POST | PATCH | DELETE

  /** A request body: caller-supplied text, or the JSON serialisation of a
      login form (kept symbolic: JSON string escaping is not modelled). */
  datatype Body = Text(text: string) | CredentialsJson(email: string, password: string)

  /** Header names to values, as a JavaScript object literal of headers. */
  type Headers = map<string, string>

  datatype HttpRequest = HttpRequest(url: string, verb: Method, headers: Headers, body: Option<Body>)

  /** What one `fetch` call yields: a response with its status and the value
      `response.json()` would produce (None when the body is not valid JSON),
      or a network failure, in which case `fetch` throws. */
  datatype FetchResult<+B> = Responded(status: nat, json: Option<B>) | FetchFailed

  /** `response.ok`: the status is in the range 200-299. */
  predicate IsOk(status: nat) {
    200 <= status <= 299
  }

  /** The errors the layer raises. NetworkError and InvalidJson are thrown by
      the runtime (`fetch`, `response.json()`), the others by the layer itself. */
  datatype Failure = LoginFailed | HttpError(status: nat) | AuthenticationFailed | NetworkError | InvalidJson

  const ContentTypeJson: Headers := map["Content-Type" := "application/json"]

  /** The credentials of an `Authorization` header with the Bearer scheme
      (section 2.1 of RFC 6750). */
  function Bearer(token: string): (credentials: string)
    ensures |credentials| == |token| + 7
    ensures credentials[..7] == "Bearer " && credentials[7..] == token
  {
    "Bearer " + token
  }

  function DigitChar(d: nat): (c: char)
    requires d < 10
    ensures '0' <= c <= '9'
  {
    ('0' as int + d) as char
  }

  predicate AllDigits(s: string) {
    forall i :: 0 <= i < |s| ==> '0' <= s[i] <= '9'
  }

  /** The decimal text of a number, as a JavaScript template literal prints it. */
  function DecimalString(n: nat): (s: string)
    ensures 1 <= |s| && AllDigits(s)
    decreases n
  {
    if n < 10 then [DigitChar(n)] else DecimalString(n / 10) + [DigitChar(n % 10)]
  }

  /** Reads a string of decimal digits back as a number. */
  function DecimalValue(s: string): nat
    requires AllDigits(s)
    decreases |s|
  {
    if s == [] then 0 else 10 * DecimalValue(s[..|s| - 1]) + (s[|s| - 1] as int - '0' as int)
  }

  lemma {:induction false} DecimalRoundTrip(n: nat)
    ensures DecimalValue(DecimalString(n)) == n
    decreases n
  {
    if n >= 10 {
      var s := DecimalString(n);
      assert s[..|s| - 1] == DecimalString(n / 10);
      DecimalRoundTrip(n / 10);
    }
  }

  const HttpErrorPrefix := "HTTP error! status: "

  /** The message of an error the layer throws itself; None for the errors
      whose message comes from the runtime. */
  function Message(f: Failure): (m: Option<string>)
    ensures m.Some? <==> f.LoginFailed? || f.HttpError? || f.AuthenticationFailed?
  {
    match f
    case LoginFailed => Some("Login failed")
    case HttpError(status) => Some(HttpErrorPrefix + DecimalString(status))
    case AuthenticationFailed => Some("Authentication failed")
    case NetworkError => None
    case InvalidJson => None
  }

  /** A caller reading only the message can tell every thrown error apart,
      down to the status of an HTTP error. */
  lemma MessageIdentifiesFailure(a: Failure, b: Failure)
    requires Message(a).Some? && Message(a) == Message(b)
    ensures a == b
  {
    var m := Message(a).value;
    // only the HTTP error message starts with 'H'
    assert a.HttpError? <==> m[0] == 'H';
    assert b.HttpError? <==> m[0] == 'H';
    if a.HttpError? {
      assert m[|HttpErrorPrefix|..] == DecimalString(a.status);
      assert m[|HttpErrorPrefix|..] == DecimalString(b.status);
      DecimalRoundTrip(a.status);
      DecimalRoundTrip(b.status);
    } else {
      assert |Message(a).value| != |Message(b).value| || a == b;
    }
  }
}
