/**
 * The API error classes (`errors.py`): an error carries a message, a status
 * code and an optional payload, and `to_dict` turns it into the JSON body.
 * The reason phrase comes from werkzeug's `HTTP_STATUS_CODES`, whose
 * phrases are those of section 15 of RFC 9110 (with a few older
 * spellings and some registered extension codes).
 */
module Errors {
  import opened Wrappers

  /** A JSON value in a payload or body. */
  datatype Json = Str(s: string) | Num(n: int) | Other

  /** The class of an error: the base class with its status code, or one of the subclasses. */
  datatype Kind =
    | Base(code: int)
    | Validation
    | NotFound
    | Authentication
    | Authorization
    | DatabaseFailure
    | Configuration

  datatype ApiError = ApiError(message: string, kind: Kind, payload: Option<map<string, Json>>)

  /** The status code each class fixes. */
  function StatusCode(k: Kind): (c: int)
    ensures k.Base? ==> c == k.code
    ensures k == Validation ==> c == 422
    ensures k == NotFound ==> c == 404
    ensures k == Authentication ==> c == 401
    ensures k == Authorization ==> c == 403
    ensures k == DatabaseFailure || k == Configuration ==> c == 500
  {
    match k
    case Base(code) => code
    case Validation => 422
    case NotFound => 404
    case Authentication => 401
    case Authorization => 403
    case DatabaseFailure => 500
    case Configuration => 500
  }

  /** `APIError(message)` with the default status code and no payload. */
  function NewApiError(message: string): (e: ApiError)
    ensures StatusCode(e.kind) == 400 && e.payload.None? && e.message == message
  {
    ApiError(message, Base(400), None)
  }

  /** A subclass error: the subclasses take only a message. */
  function NewSubclassError(message: string, k: Kind): (e: ApiError)
    requires !k.Base?
    ensures e.payload.None? && e.message == message && e.kind == k
  {
    ApiError(message, k, None)
  }

  /** werkzeug's `HTTP_STATUS_CODES`: the reason phrase of a status code, if it has one. */
  function ReasonPhrase(code: int): (r: Option<string>)
    ensures code == 400 ==> r == Some("Bad Request")
    ensures code == 404 ==> r == Some("Not Found")
    ensures r.Some? ==> 100 <= code <= 599 && r.value != "Unknown error"
  {
    if code < 100 || 600 <= code then None
    else if code < 200 then InformationalPhrase(code)
    else if code < 300 then SuccessfulPhrase(code)
    else if code < 400 then RedirectionPhrase(code)
    else if code < 500 then ClientErrorPhrase(code)
    else ServerErrorPhrase(code)
  }

  /** The phrases of the 1xx codes. */
  function InformationalPhrase(code: int): (r: Option<string>)
    ensures r.Some? ==> r.value != "Unknown error"
  {
    match code
    case 100 => Some("Continue")
    case 101 => Some("Switching Protocols")
    case 102 => Some("Processing")
    case 103 => Some("Early Hints")
    case _ => None
  }

  /** The phrases of the 2xx codes. */
  function SuccessfulPhrase(code: int): (r: Option<string>)
    ensures r.Some? ==> r.value != "Unknown error"
  {
    match code
    case 200 => Some("OK")
    case 201 => Some("Created")
    case 202 => Some("Accepted")
    case 203 => Some("Non Authoritative Information")
    case 204 => Some("No Content")
    case 205 => Some("Reset Content")
    case 206 => Some("Partial Content")
    case 207 => Some("Multi Status")
    case 208 => Some("Already Reported")
    case 226 => Some("IM Used")
    case _ => None
  }

  /** The phrases of the 3xx codes. */
  function RedirectionPhrase(code: int): (r: Option<string>)
    ensures r.Some? ==> r.value != "Unknown error"
  {
    match code
    case 300 => Some("Multiple Choices")
    case 301 => Some("Moved Permanently")
    case 302 => Some("Found")
    case 303 => Some("See Other")
    case 304 => Some("Not Modified")
    case 305 => Some("Use Proxy")
    case 306 => Some("Switch Proxy")
    case 307 => Some("Temporary Redirect")
    case 308 => Some("Permanent Redirect")
    case _ => None
  }

  /** The phrases of the 4xx codes. */
  function ClientErrorPhrase(code: int): (r: Option<string>)
    ensures r.Some? ==> r.value != "Unknown error"
  {
    match code
    case 400 => Some("Bad Request")
    case 401 => Some("Unauthorized")
    case 402 => Some("Payment Required")
    case 403 => Some("Forbidden")
    case 404 => Some("Not Found")
    case 405 => Some("Method Not Allowed")
    case 406 => Some("Not Acceptable")
    case 407 => Some("Proxy Authentication Required")
    case 408 => Some("Request Timeout")
    case 409 => Some("Conflict")
    case 410 => Some("Gone")
    case 411 => Some("Length Required")
    case 412 => Some("Precondition Failed")
    case 413 => Some("Request Entity Too Large")
    case 414 => Some("Request URI Too Long")
    case 415 => Some("Unsupported Media Type")
    case 416 => Some("Requested Range Not Satisfiable")
    case 417 => Some("Expectation Failed")
    case 418 => Some("I'm a teapot")
    case 421 => Some("Misdirected Request")
    case 422 => Some("Unprocessable Entity")
    case 423 => Some("Locked")
    case 424 => Some("Failed Dependency")
    case 425 => Some("Too Early")
    case 426 => Some("Upgrade Required")
    case 428 => Some("Precondition Required")
    case 429 => Some("Too Many Requests")
    case 431 => Some("Request Header Fields Too Large")
    case 449 => Some("Retry With")
    case 451 => Some("Unavailable For Legal Reasons")
    case _ => None
  }

  /** The phrases of the 5xx codes. */
  function ServerErrorPhrase(code: int): (r: Option<string>)
    ensures r.Some? ==> r.value != "Unknown error"
  {
    match code
    case 500 => Some("Internal Server Error")
    case 501 => Some("Not Implemented")
    case 502 => Some("Bad Gateway")
    case 503 => Some("Service Unavailable")
    case 504 => Some("Gateway Timeout")
    case 505 => Some("HTTP Version Not Supported")
    case 506 => Some("Variant Also Negotiates")
    case 507 => Some("Insufficient Storage")
    case 508 => Some("Loop Detected")
    case 510 => Some("Not Extended")
    case 511 => Some("Network Authentication Failed")
    case _ => None
  }

  /** The three keys `to_dict` always sets. */
  const Fixed: set<string> := {"message", "status", "error"}

  /**
   * `to_dict`: the payload (or nothing) with `message`, `status` and
   * `error` set last, so they override payload entries of the same name;
   * `error` is the reason phrase, or `Unknown error` for a code without one.
   */
  function ToDict(e: ApiError): (r: map<string, Json>)
    ensures r.Keys == e.payload.GetOr(map[]).Keys + Fixed
    ensures r["message"] == Str(e.message) && r["status"] == Num(StatusCode(e.kind))
    ensures r["error"] == Str(ReasonPhrase(StatusCode(e.kind)).GetOr("Unknown error"))
    ensures forall k :: k in e.payload.GetOr(map[]) && k !in Fixed ==> r[k] == e.payload.GetOr(map[])[k]
  {
    var code := StatusCode(e.kind);
    e.payload.GetOr(map[])["message" := Str(e.message)]["status" := Num(code)]["error" := Str(ReasonPhrase(code).GetOr("Unknown error"))]
  }

  /**
   * Every subclass produces a body of exactly the three fixed keys whose
   * `error` is a real reason phrase matching its status.
   */
  lemma SubclassBodies(message: string, k: Kind)
    requires !k.Base?
    ensures ToDict(NewSubclassError(message, k)).Keys == Fixed
    ensures ReasonPhrase(StatusCode(k)).Some?
    ensures ToDict(NewSubclassError(message, k))["error"] == Str(ReasonPhrase(StatusCode(k)).value)
  {
  }

  /** The subclasses' phrases, as the JSON bodies carry them. */
  lemma SubclassPhrases()
    ensures ReasonPhrase(StatusCode(Validation)) == Some("Unprocessable Entity")
    ensures ReasonPhrase(StatusCode(Authentication)) == Some("Unauthorized")
    ensures ReasonPhrase(StatusCode(Authorization)) == Some("Forbidden")
    ensures ReasonPhrase(StatusCode(DatabaseFailure)) == Some("Internal Server Error")
  {
  }

  /** A code without a phrase reports `Unknown error`, whatever the payload holds under the fixed keys. */
  lemma UnknownCodeBody(message: string, code: int, payload: map<string, Json>)
    requires ReasonPhrase(code).None?
    ensures var r := ToDict(ApiError(message, Base(code), Some(payload)));
      r["status"] == Num(code) && r["error"] == Str("Unknown error") && r["message"] == Str(message)
  {
  }

  /** A missing payload and an empty one give the same body (`payload or ()`). */
  lemma EmptyPayloadSameAsNone(message: string, k: Kind)
    ensures ToDict(ApiError(message, k, Some(map[]))) == ToDict(ApiError(message, k, None))
  {
  }
}
