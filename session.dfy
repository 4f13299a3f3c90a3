/**
 * The session as a value: the auth store's three fields together with the two
 * places they are mirrored into, localStorage and the boot client's default
 * headers.  Each transition of the store (src/stores/auth.ts) and of the
 * refresh path (src/services/api.ts) is a function on this value; the classes
 * in AuthStore and ApiService are proved to perform exactly these functions.
 */
module Session {
  import opened Wrappers
  import opened Js
  import opened Http
  import opened Browser

  /** The user record of an auth response. */
  datatype User = User(id: int, deletedAt: Option<string>, email: string, isAdmin: bool)

  /** The token pair of an auth or refresh response. */
  datatype Tokens = Tokens(accessToken: string, refreshToken: string)

  /** The body of a successful login. */
  datatype AuthResponse = AuthResponse(user: User, tokens: Tokens)

  datatype State = State(
    user: Option<User>,
    accessToken: Option<string>,
    refreshToken: Option<string>,
    storage: map<string, string>,
    commonHeaders: map<string, string>)

  /** The storage keys the session owns. */
  function TokenKeys(): (r: set<string>) {
    {AccessTokenKey, RefreshTokenKey}
  }

  /** Every key other than the session's own keeps its entry (or its absence). */
  ghost predicate OtherKeysUnchanged(a: map<string, string>, b: map<string, string>) {
    forall k :: k !in TokenKeys() ==> Lookup(a, k) == Lookup(b, k)
  }

  /** The central invariant: each token field equals its storage entry, null meaning absent. */
  predicate Synced(s: State) {
    s.accessToken == Lookup(s.storage, AccessTokenKey) &&
    s.refreshToken == Lookup(s.storage, RefreshTokenKey)
  }

  /**
   * Store creation: no user, tokens read from storage, and the default
   * Authorization header set only when the stored access token is truthy.
   */
  function Init(storage: map<string, string>, commonHeaders: map<string, string>): (s: State)
    ensures Synced(s)
    ensures s.user.None?
    ensures s.accessToken == Lookup(storage, AccessTokenKey)
    ensures s.refreshToken == Lookup(storage, RefreshTokenKey)
    ensures s.storage == storage
    ensures TruthyStr(s.accessToken) ==>
              s.commonHeaders == commonHeaders[AuthorizationHeader := Bearer(storage[AccessTokenKey])]
    ensures !TruthyStr(s.accessToken) ==> s.commonHeaders == commonHeaders
  {
    var access := Lookup(storage, AccessTokenKey);
    var headers :=
      if TruthyStr(access) then commonHeaders[AuthorizationHeader := Bearer(access.value)]
      else commonHeaders;
    State(None, access, Lookup(storage, RefreshTokenKey), storage, headers)
  }

  /**
   * `setAuthData`: the user, both token fields, both storage keys and the default
   * Authorization header all come from the response; nothing else changes.
   */
  function SetAuth(s: State, d: AuthResponse): (r: State)
    ensures Synced(r)
    ensures r.user == Some(d.user)
    ensures r.accessToken == Some(d.tokens.accessToken)
    ensures r.refreshToken == Some(d.tokens.refreshToken)
    ensures Lookup(r.storage, AccessTokenKey) == Some(d.tokens.accessToken)
    ensures Lookup(r.storage, RefreshTokenKey) == Some(d.tokens.refreshToken)
    ensures OtherKeysUnchanged(r.storage, s.storage)
    ensures Lookup(r.commonHeaders, AuthorizationHeader) == Some(Bearer(d.tokens.accessToken))
    ensures SameOtherHeaders(r.commonHeaders, s.commonHeaders, AuthorizationHeader)
  {
    State(
      Some(d.user),
      Some(d.tokens.accessToken),
      Some(d.tokens.refreshToken),
      s.storage[AccessTokenKey := d.tokens.accessToken][RefreshTokenKey := d.tokens.refreshToken],
      s.commonHeaders[AuthorizationHeader := Bearer(d.tokens.accessToken)])
  }

  /**
   * `clearAuthData`: all three fields null, both keys removed, the default
   * Authorization header deleted; every other key and header is kept.
   */
  function Clear(s: State): (r: State)
    ensures Synced(r)
    ensures r.user.None? && r.accessToken.None? && r.refreshToken.None?
    ensures AccessTokenKey !in r.storage && RefreshTokenKey !in r.storage
    ensures OtherKeysUnchanged(r.storage, s.storage)
    ensures AuthorizationHeader !in r.commonHeaders
    ensures SameOtherHeaders(r.commonHeaders, s.commonHeaders, AuthorizationHeader)
  {
    State(None, None, None,
      s.storage - {AccessTokenKey} - {RefreshTokenKey},
      s.commonHeaders - {AuthorizationHeader})
  }

  /**
   * The refresh path of the response interceptor: both token fields and both
   * storage keys take the new pair.  The user and the boot client's default
   * headers are not touched.
   */
  function Refresh(s: State, t: Tokens): (r: State)
    ensures Synced(r)
    ensures r.user == s.user
    ensures r.accessToken == Some(t.accessToken) && r.refreshToken == Some(t.refreshToken)
    ensures Lookup(r.storage, AccessTokenKey) == Some(t.accessToken)
    ensures Lookup(r.storage, RefreshTokenKey) == Some(t.refreshToken)
    ensures OtherKeysUnchanged(r.storage, s.storage)
    ensures r.commonHeaders == s.commonHeaders
  {
    State(
      s.user,
      Some(t.accessToken),
      Some(t.refreshToken),
      s.storage[AccessTokenKey := t.accessToken][RefreshTokenKey := t.refreshToken],
      s.commonHeaders)
  }

  /** `isAuthenticated`: `!!accessToken`, so null and the empty string both mean signed out. */
  function IsAuthenticated(s: State): (b: bool)
    ensures b <==> s.accessToken != None && s.accessToken != Some("")
  {
    TruthyStr(s.accessToken)
  }

  /** While the invariant holds, being signed in is a fact about storage alone. */
  lemma AuthenticatedIffStoredToken(s: State)
    requires Synced(s)
    ensures IsAuthenticated(s) <==> AccessTokenKey in s.storage && s.storage[AccessTokenKey] != ""
  {
  }

  /** Logging out twice leaves the same state as logging out once. */
  lemma ClearIdempotent(s: State)
    ensures Clear(Clear(s)) == Clear(s)
  {
  }

  /** Logging out after a login ends in the same state as logging out before it: the tokens are unrecoverable. */
  lemma ClearForgetsLogin(s: State, d: AuthResponse)
    ensures Clear(SetAuth(s, d)) == Clear(s)
  {
  }

  /** After a refresh the old pair is gone from storage: only a second refresh or a login could bring tokens back. */
  lemma RefreshForgetsOldPair(s: State, t: Tokens)
    ensures Refresh(s, t).storage == Refresh(Clear(s), t).storage
  {
  }
}
