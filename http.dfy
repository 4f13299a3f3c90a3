/**
 * What the two HTTP clients exchange: request configs (mutable objects that the
 * interceptors change in place), the requests as they go out, responses and
 * failures, and the bearer-header rule both request interceptors follow.
 */
module Http {
  import opened Wrappers
  import opened Js

  const AuthorizationHeader: string := "Authorization"
  const Unauthorized: int := 401

  /** The value of the bearer header for `token`. */
  function Bearer(token: string): (r: string) {
    "Bearer " + token
  }

  /** A response as the caller receives it. */
  datatype Response = Response(status: int, data: Json)

  /**
   * A rejection: an HTTP error (with the status of its response, or none when no
   * response arrived), or a TypeError thrown while reading a response body.
   */
  datatype Failure =
    | HttpError(status: Option<int>, message: string)
    | BodyError(cause: TypeError)

  /** `error.response?.status`. */
  function StatusOf(f: Failure): (r: Option<int>)
    ensures f.BodyError? ==> r.None?
  {
    match f
    case HttpError(status, _) => status
    case BodyError(_) => None
  }

  /** The settled value of an awaited call. */
  type Outcome = Result<Response, Failure>

  /** A request as it leaves the client: HTTP method (verb), path, headers and body. */
  datatype Request = Request(verb: string, url: string, headers: map<string, string>, data: Json)

  /** Two header maps agree on every header other than `h`. */
  ghost predicate SameOtherHeaders(a: map<string, string>, b: map<string, string>, h: string) {
    forall k :: k != h ==> Lookup(a, k) == Lookup(b, k)
  }

  /**
   * `if (token) headers.Authorization = "Bearer " + token`: the rule of both
   * request interceptors.  A falsy token (null or "") leaves the headers as they
   * are; no header other than Authorization is ever touched.
   */
  function AttachBearer(headers: map<string, string>, token: Option<string>): (r: map<string, string>)
    ensures TruthyStr(token) ==> Lookup(r, AuthorizationHeader) == Some(Bearer(token.value))
    ensures !TruthyStr(token) ==> r == headers
    ensures SameOtherHeaders(r, headers, AuthorizationHeader)
  {
    if TruthyStr(token) then headers[AuthorizationHeader := Bearer(token.value)] else headers
  }

  /**
   * The config object a request travels with.  Interceptors assign to its
   * headers and to its `_retry` marker; the marker starts out absent (false).
   */
  class RequestConfig {
    const verb: string
    const url: string
    const data: Json
    var headers: map<string, string>
    var retry: bool

    constructor (verb: string, url: string, headers: map<string, string>, data: Json)
      ensures this.verb == verb && this.url == url && this.data == data
      ensures this.headers == headers && !retry
    {
      this.verb := verb;
      this.url := url;
      this.data := data;
      this.headers := headers;
      retry := false;
    }

    /** The request this config describes, as it would go out now. */
    function AsRequest(): (r: Request)
      reads this
      ensures r.verb == verb && r.url == url && r.headers == headers && r.data == data
    {
      Request(verb, url, headers, data)
    }
  }
}
