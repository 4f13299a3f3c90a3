/**
 * The client created at boot (src/boot/axios.ts): JSON content type,
 * credentials included, a request interceptor that takes the bearer token
 * from localStorage, and a response interceptor that passes everything on.
 * The auth store issues its requests through this client and writes its
 * default Authorization header.
 */
module BootAxios {
  import opened Wrappers
  import opened Js
  import opened Http
  import opened Browser

  const ContentTypeHeader: string := "Content-Type"
  const JsonContentType: string := "application/json"

  class Client {
    const baseUrl: string
    /** Headers given at creation; every request carries them. */
    const headers: map<string, string>
    const withCredentials: bool
    /** `defaults.headers.common`, which the auth store assigns to and deletes from. */
    var commonHeaders: map<string, string>
    const storage: LocalStorage

    constructor (baseUrl: string, storage: LocalStorage)
      ensures this.baseUrl == baseUrl && this.storage == storage
      ensures headers == map[ContentTypeHeader := JsonContentType]
      ensures withCredentials
      ensures commonHeaders == map[]
    {
      this.baseUrl := baseUrl;
      this.storage := storage;
      headers := map[ContentTypeHeader := JsonContentType];
      withCredentials := true;
      commonHeaders := map[];
    }

    /**
     * The request interceptor: reads the access token from localStorage and,
     * when it is truthy, sets the config's Authorization header to its bearer
     * form; the config is otherwise returned as it came.
     */
    method InterceptRequest(config: RequestConfig)
      modifies config
      ensures config.headers == AttachBearer(old(config.headers), storage.GetItem(AccessTokenKey))
      ensures config.retry == old(config.retry)
    {
      var token := storage.GetItem(AccessTokenKey);
      if TruthyStr(token) {
        config.headers := config.headers[AuthorizationHeader := Bearer(token.value)];
      }
    }

    /**
     * The headers a request with its own headers `own` is given before the
     * interceptor runs: the common defaults, overridden by the creation-time
     * headers, overridden by the request's own.
     */
    function Prepared(own: map<string, string>): (r: map<string, string>)
      reads this
      ensures r.Keys == commonHeaders.Keys + headers.Keys + own.Keys
      ensures forall h :: h in own ==> r[h] == own[h]
      ensures forall h :: h in headers && h !in own ==> r[h] == headers[h]
      ensures forall h :: h in commonHeaders && h !in headers && h !in own ==> r[h] == commonHeaders[h]
    {
      commonHeaders + (headers + own)
    }

    /** The headers such a request leaves with, after the request interceptor. */
    function Outgoing(own: map<string, string>): (r: map<string, string>)
      reads this, storage
      ensures TruthyStr(storage.GetItem(AccessTokenKey)) ==>
                Lookup(r, AuthorizationHeader) == Some(Bearer(storage.items[AccessTokenKey]))
      ensures !TruthyStr(storage.GetItem(AccessTokenKey)) ==> r == Prepared(own)
      ensures SameOtherHeaders(r, Prepared(own), AuthorizationHeader)
    {
      AttachBearer(Prepared(own), storage.GetItem(AccessTokenKey))
    }

    /**
     * The response interceptor: a fulfilled response reaches the caller
     * unchanged and a rejection is rejected again with the same error; the
     * handler changes no state (its logging is not modelled).
     */
    function InterceptResponse(o: Outcome): (r: Outcome)
      ensures r.Ok? <==> o.Ok?
      ensures r.Ok? ==> r.value == o.value
      ensures r.Err? ==> r.error == o.error
    {
      o
    }
  }
}
