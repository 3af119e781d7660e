/**
 * The registered HTTP status codes and their reason phrases, as Python's
 * `http.HTTPStatus` lists them (section 15 of RFC 9110, plus the codes other
 * RFCs register).
 */
module HttpStatus {
  import opened Wrappers

  const OK: int := 200
  const Created: int := 201
  const Unauthorized: int := 401
  const NotFound: int := 404
  const Conflict: int := 409
  const UnprocessableContent: int := 422
  const InternalServerError: int := 500

  /** The reason phrase of a registered code; `None` for a code `HTTPStatus` does not know. */
  function Phrase(code: int): (p: Option<string>)
    ensures p.Some? ==> 100 <= code < 600 && p.value != ""
  {
    match code
    case 100 => Some("Continue")
    case 101 => Some("Switching Protocols")
    case 102 => Some("Processing")
    case 103 => Some("Early Hints")
    case 200 => Some("OK")
    case 201 => Some("Created")
    case 202 => Some("Accepted")
    case 203 => Some("Non-Authoritative Information")
    case 204 => Some("No Content")
    case 205 => Some("Reset Content")
    case 206 => Some("Partial Content")
    case 207 => Some("Multi-Status")
    case 208 => Some("Already Reported")
    case 226 => Some("IM Used")
    case 300 => Some("Multiple Choices")
    case 301 => Some("Moved Permanently")
    case 302 => Some("Found")
    case 303 => Some("See Other")
    case 304 => Some("Not Modified")
    case 305 => Some("Use Proxy")
    case 307 => Some("Temporary Redirect")
    case 308 => Some("Permanent Redirect")
    case 400 => Some("Bad Request")
    case 401 => Some("Unauthorized")
    case 402 => Some("Payment Required")
    case 403 => Some("Forbidden")
    case 404 => Some("Not Found")
    case 405 => Some("Method Not Allowed")
    case 406 => Some("Not Acceptable")
    case 407 => Some("Proxy Authentication Required")
    case 408 => Some("Request Timeout")
    case 409 => Some("Conflict")
    case 410 => Some("Gone")
    case 411 => Some("Length Required")
    case 412 => Some("Precondition Failed")
    case 413 => Some("Content Too Large")
    case 414 => Some("URI Too Long")
    case 415 => Some("Unsupported Media Type")
    case 416 => Some("Range Not Satisfiable")
    case 417 => Some("Expectation Failed")
    case 418 => Some("I'm a Teapot")
    case 421 => Some("Misdirected Request")
    case 422 => Some("Unprocessable Content")
    case 423 => Some("Locked")
    case 424 => Some("Failed Dependency")
    case 425 => Some("Too Early")
    case 426 => Some("Upgrade Required")
    case 428 => Some("Precondition Required")
    case 429 => Some("Too Many Requests")
    case 431 => Some("Request Header Fields Too Large")
    case 451 => Some("Unavailable For Legal Reasons")
    case 500 => Some("Internal Server Error")
    case 501 => Some("Not Implemented")
    case 502 => Some("Bad Gateway")
    case 503 => Some("Service Unavailable")
    case 504 => Some("Gateway Timeout")
    case 505 => Some("HTTP Version Not Supported")
    case 506 => Some("Variant Also Negotiates")
    case 507 => Some("Insufficient Storage")
    case 508 => Some("Loop Detected")
    case 510 => Some("Not Extended")
    case 511 => Some("Network Authentication Required")
    case _ => None
  }

  predicate IsRegistered(code: int) {
    Phrase(code).Some?
  }

  /** The codes the backend answers with, and their phrases. */
  lemma BackendPhrases()
    ensures Phrase(OK) == Some("OK") && Phrase(Created) == Some("Created")
    ensures Phrase(Unauthorized) == Some("Unauthorized") && Phrase(NotFound) == Some("Not Found")
    ensures Phrase(Conflict) == Some("Conflict")
    ensures Phrase(UnprocessableContent) == Some("Unprocessable Content")
    ensures Phrase(InternalServerError) == Some("Internal Server Error")
  {
  }
}
