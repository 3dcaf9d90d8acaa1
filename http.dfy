/**
 * What the HTTP client hands back: a reply with a status, or no reply at all; how
 * axios turns a reply its `validateStatus` refuses into a thrown error; and the
 * error record (`message`, `code`, `response.status`) that the callers inspect.
 */
module Http {
  import opened Wrappers
  import opened JsText

  /** A thrown error as the callers see it: `error.message`, `error.code` and
      `error.response?.status`. */
  datatype JsError = JsError(message: string, code: Option<string>, responseStatus: Option<int>)

  /** What the network produced for one request. */
  datatype Raw<B> =
    | Answered(status: int, body: B)
    | NoAnswer(code: Option<string>, message: string)

  /** A readable response body: the chunks delivered before `end`, or before an `error`
      event when `failure` is present. Chunks are taken as already decoded text. */
  datatype Stream = Stream(chunks: seq<string>, failure: Option<JsError>)

  /** The status range axios accepts when no `validateStatus` is configured. */
  predicate DefaultAccepts(status: int) {
    200 <= status < 300
  }

  /** The error code axios gives a refused status: the 4xx and 5xx classes are named,
      any other class has none. */
  function RefusedCode(status: int): (r: Option<string>)
    ensures 400 <= status < 500 ==> r == Some("ERR_BAD_REQUEST")
    ensures 500 <= status < 600 ==> r == Some("ERR_BAD_RESPONSE")
    ensures (status < 400 || status >= 600) ==> r == None
  {
    var k := status / 100 - 4;
    if k == 0 then Some("ERR_BAD_REQUEST") else if k == 1 then Some("ERR_BAD_RESPONSE") else None
  }

  /** A request through axios: an accepted status resolves with the reply; a refused
      one rejects with an error that carries the response; no reply rejects with an
      error without one. */
  function Axios<B>(raw: Raw<B>, accepts: int -> bool): (r: Result<(int, B), JsError>)
    ensures raw.Answered? && accepts(raw.status) ==> r == Ok((raw.status, raw.body))
    ensures raw.Answered? && !accepts(raw.status) ==>
      r.Err? && r.error.responseStatus == Some(raw.status)
    ensures raw.NoAnswer? ==> r.Err? && r.error.responseStatus == None
  {
    match raw
    case Answered(status, body) =>
      if accepts(status) then Ok((status, body))
      else Err(JsError("Request failed with status code " + IntToString(status), RefusedCode(status), Some(status)))
    case NoAnswer(code, message) => Err(JsError(message, code, None))
  }
}
