/**
 * The services client (src/services/api.ts): a second axios instance whose
 * request interceptor takes the bearer token from the auth store's field, and
 * whose response interceptor turns a first 401 into a token refresh followed
 * by one resend of the original request.
 */
module ApiService {
  import opened Wrappers
  import opened Js
  import opened Http
  import opened Browser
  import opened Session
  import AuthStore

  const ServicesBaseUrl: string := "https://aivy.mobgroup.kz/api"
  const RefreshUrl: string := "/auth/refresh"

  /** The branch condition of the error handler: a 401 on a request not yet retried. */
  predicate IsFirstUnauthorized(error: Failure, retry: bool) {
    StatusOf(error) == Some(Unauthorized) && !retry
  }

  /** `{refreshToken: store.refreshToken}`; a null field is sent as JSON null. */
  function RefreshBody(refreshToken: Option<string>): (j: Json)
    ensures j.JObj? && |j.fields| == 1 && j.fields[0].0 == "refreshToken"
    ensures refreshToken.Some? <==> j.fields[0].1.JStr?
    ensures refreshToken.Some? ==> j.fields[0].1.s == refreshToken.value
    ensures refreshToken.None? ==> j.fields[0].1 == JNull
  {
    JObj([("refreshToken", match refreshToken case Some(t) => JStr(t) case None => JNull)])
  }

  /** The refresh request as it leaves: it carries the bearer of the current, expired token. */
  function RefreshRequest(accessToken: Option<string>, refreshToken: Option<string>): (r: Request) {
    Request("POST", RefreshUrl, AttachBearer(map[], accessToken), RefreshBody(refreshToken))
  }

  class Api {
    const baseUrl: string
    const store: AuthStore.Store

    constructor (store: AuthStore.Store)
      ensures this.store == store && baseUrl == ServicesBaseUrl
    {
      this.store := store;
      baseUrl := ServicesBaseUrl;
    }

    /**
     * The request interceptor: sets Authorization to the bearer form of the
     * store's access token when that token is truthy; otherwise the config is
     * returned unchanged.
     */
    method InterceptRequest(config: RequestConfig)
      modifies config
      ensures config.headers == AttachBearer(old(config.headers), store.accessToken)
      ensures config.retry == old(config.retry)
    {
      var token := store.accessToken;
      if TruthyStr(token) {
        config.headers := config.headers[AuthorizationHeader := Bearer(token.value)];
      }
    }

    /** The fulfilled handler of the response interceptor: a response reaches the caller as it came. */
    function InterceptResponse(response: Response): (r: Response)
      ensures r.status == response.status && r.data == response.data
    {
      response
    }

    /**
     * The rejection handler of the response interceptor, for an `error` whose
     * config is `original`.  `refreshed` is what the refresh request settles to
     * (a missing `tokens` object in its body is a TypeError, caught the same
     * way) and `resent` what the resent original request settles to.  The
     * handler also runs on the resent request's own rejection; `calls` lists
     * the requests it issues, in order.
     */
    method InterceptError(error: Failure, original: RequestConfig,
                          refreshed: Result<Tokens, Failure>, resent: Outcome)
      returns (result: Outcome, calls: seq<Request>)
      requires store.Valid()
      modifies original, store, store.storage, store.client
      ensures !IsFirstUnauthorized(error, old(original.retry)) ==>
                && result == Err(error) && calls == []
                && original.headers == old(original.headers) && original.retry == old(original.retry)
                && store.Snapshot() == old(store.Snapshot())
      ensures IsFirstUnauthorized(error, old(original.retry)) ==>
                && original.retry
                && |calls| >= 1
                && calls[0] == RefreshRequest(old(store.accessToken), old(store.refreshToken))
      ensures IsFirstUnauthorized(error, old(original.retry)) && refreshed.Ok? ==>
                && store.Snapshot() == Refresh(old(store.Snapshot()), refreshed.value)
                && original.headers ==
                     old(original.headers)[AuthorizationHeader := Bearer(refreshed.value.accessToken)]
                && |calls| == 2 && calls[1] == original.AsRequest()
                && result == resent
      ensures IsFirstUnauthorized(error, old(original.retry)) && refreshed.Err? ==>
                && store.Snapshot() == Clear(old(store.Snapshot()))
                && original.headers == old(original.headers)
                && |calls| == 1
                && result == Err(refreshed.error)
      decreases if original.retry then 0 else 1
    {
      if StatusOf(error) == Some(Unauthorized) && !original.retry {
        original.retry := true;
        var refresh := IssueRefresh();
        calls := [refresh];
        match refreshed
        case Ok(tokens) =>
          StoreTokens(tokens);
          var again := Resend(original, tokens);
          calls := calls + [again];
          if resent.Ok? {
            result := resent;
          } else {
            // the resend's rejection comes back through this handler, now with `_retry` set
            var nestedCalls;
            result, nestedCalls := InterceptError(resent.error, original, refreshed, resent);
          }
        case Err(refreshError) =>
          store.Logout();
          result := Err(refreshError);
      } else {
        result := Err(error);
        calls := [];
      }
    }

    /** `api.post('/auth/refresh', {refreshToken})`: a fresh config through the request interceptor. */
    method IssueRefresh() returns (sent: Request)
      ensures sent == RefreshRequest(store.accessToken, store.refreshToken)
    {
      var refresh := new RequestConfig("POST", RefreshUrl, map[], RefreshBody(store.refreshToken));
      InterceptRequest(refresh);
      sent := refresh.AsRequest();
    }

    /** Writes a refreshed pair into the store's fields and into localStorage. */
    method StoreTokens(tokens: Tokens)
      modifies store, store.storage
      ensures store.Snapshot() == Refresh(old(store.Snapshot()), tokens)
    {
      store.accessToken := Some(tokens.accessToken);
      store.refreshToken := Some(tokens.refreshToken);
      store.storage.SetItem(AccessTokenKey, tokens.accessToken);
      store.storage.SetItem(RefreshTokenKey, tokens.refreshToken);
    }

    /**
     * Sets the new bearer on the original config and sends it again with
     * `api(originalRequest)`, which runs the request interceptor once more.
     */
    method Resend(original: RequestConfig, tokens: Tokens) returns (sent: Request)
      requires store.accessToken == Some(tokens.accessToken)
      modifies original
      ensures original.headers == old(original.headers)[AuthorizationHeader := Bearer(tokens.accessToken)]
      ensures original.retry == old(original.retry)
      ensures sent == original.AsRequest()
    {
      original.headers := original.headers[AuthorizationHeader := Bearer(tokens.accessToken)];
      InterceptRequest(original);
      sent := original.AsRequest();
    }
  }

  /**
   * The two clients agree on the bearer header while the store and storage are
   * in sync: with a truthy token both send its bearer form; without one
   * neither interceptor adds a header.
   */
  lemma ClientsAgree(api: Api, bootOwn: map<string, string>, own: map<string, string>)
    requires api.store.Valid() && Synced(api.store.Snapshot())
    ensures api.store.IsAuthenticated() ==>
              && Lookup(api.store.client.Outgoing(bootOwn), AuthorizationHeader) == Some(Bearer(api.store.accessToken.value))
              && Lookup(AttachBearer(own, api.store.accessToken), AuthorizationHeader) == Some(Bearer(api.store.accessToken.value))
    ensures !api.store.IsAuthenticated() ==>
              && api.store.client.Outgoing(bootOwn) == api.store.client.Prepared(bootOwn)
              && AttachBearer(own, api.store.accessToken) == own
  {
  }

  /**
   * The agreement above stops at the signed-out case.  A refresh that returns an
   * empty access token leaves the session in sync and signed out, but the refresh
   * path never touches the boot client's defaults, so the boot client keeps
   * sending the old bearer while the services client sends none.
   */
  lemma EmptyRefreshedTokenKeepsStaleDefault()
    ensures var r := Refresh(Init(map[AccessTokenKey := "T1", RefreshTokenKey := "R1"], map[]), Tokens("", "R2"));
            && Synced(r) && !IsAuthenticated(r)
            && Lookup(r.commonHeaders, AuthorizationHeader) == Some(Bearer("T1"))
            && AttachBearer(map[], r.accessToken) == map[]
  {
  }
}
