/**
 * The auth store (src/stores/auth.ts): three mutable fields mirrored into
 * localStorage and into the boot client's default headers.  Every method is
 * proved to perform the matching transition of module Session, so the
 * invariant Session.Synced holds after creation and after every method.
 */
module AuthStore {
  import opened Wrappers
  import opened Js
  import opened Http
  import opened Browser
  import BootAxios
  import opened Session

  const LoginUrl: string := "/auth/login-by-email"

  class Store {
    var user: Option<User>
    var accessToken: Option<string>
    var refreshToken: Option<string>
    /** The boot client: the store posts through it and sets its default header. */
    const client: BootAxios.Client
    const storage: LocalStorage

    /** The store and its client share the one localStorage. */
    predicate Valid() {
      storage == client.storage
    }

    /** The store's fields together with what they are mirrored into. */
    function Snapshot(): (s: Session.State)
      reads this, storage, client
      ensures s.user == user && s.accessToken == accessToken && s.refreshToken == refreshToken
      ensures s.storage == storage.items && s.commonHeaders == client.commonHeaders
    {
      Session.State(user, accessToken, refreshToken, storage.items, client.commonHeaders)
    }

    /**
     * Store creation: reads both tokens from storage and, when the access token
     * is truthy, sets the client's default Authorization header.
     */
    constructor (client: BootAxios.Client)
      modifies client
      ensures this.client == client && Valid()
      ensures client.storage.items == old(client.storage.items)
      ensures Snapshot() == Init(old(client.storage.items), old(client.commonHeaders))
    {
      this.client := client;
      storage := client.storage;
      user := None;
      var access := client.storage.GetItem(AccessTokenKey);
      accessToken := access;
      refreshToken := client.storage.GetItem(RefreshTokenKey);
      new;
      if TruthyStr(access) {
        client.commonHeaders := client.commonHeaders[AuthorizationHeader := Bearer(access.value)];
      }
    }

    /** `setAuthData`: the single path by which a login installs a session. */
    method SetAuthData(data: AuthResponse)
      modifies this, storage, client
      ensures Snapshot() == SetAuth(old(Snapshot()), data)
    {
      user := Some(data.user);
      accessToken := Some(data.tokens.accessToken);
      refreshToken := Some(data.tokens.refreshToken);
      storage.SetItem(AccessTokenKey, data.tokens.accessToken);
      storage.SetItem(RefreshTokenKey, data.tokens.refreshToken);
      client.commonHeaders := client.commonHeaders[AuthorizationHeader := Bearer(data.tokens.accessToken)];
    }

    /** `clearAuthData`: forgets the session in the store, in storage and in the client. */
    method ClearAuthData()
      modifies this, storage, client
      ensures Snapshot() == Clear(old(Snapshot()))
    {
      user := None;
      accessToken := None;
      refreshToken := None;
      storage.RemoveItem(AccessTokenKey);
      storage.RemoveItem(RefreshTokenKey);
      client.commonHeaders := client.commonHeaders - {AuthorizationHeader};
    }

    /**
     * `login`: posts the credentials through the boot client; `response` is what
     * that post settles to.  On success the body is installed with setAuthData;
     * on failure the error is rethrown before anything is changed.
     */
    method Login(email: string, password: string, response: Result<AuthResponse, Failure>)
      returns (result: Result<(), Failure>, sent: Request)
      modifies this, storage, client
      ensures sent == Request("POST", LoginUrl, old(client.Outgoing(map[])),
                              JObj([("email", JStr(email)), ("password", JStr(password))]))
      ensures response.Ok? ==> result == Ok(()) && Snapshot() == SetAuth(old(Snapshot()), response.value)
      ensures response.Err? ==> result == Err(response.error) && Snapshot() == old(Snapshot())
    {
      sent := Request("POST", LoginUrl, client.Outgoing(map[]),
                      JObj([("email", JStr(email)), ("password", JStr(password))]));
      match response
      case Err(e) =>
        result := Err(e);
      case Ok(data) =>
        SetAuthData(data);
        result := Ok(());
    }

    /** `logout`: clearAuthData, which cannot fail. */
    method Logout()
      modifies this, storage, client
      ensures Snapshot() == Clear(old(Snapshot()))
    {
      ClearAuthData();
    }

    /** `isAuthenticated`: whether the access token field is truthy. */
    function IsAuthenticated(): (b: bool)
      reads this
      ensures b <==> accessToken != None && accessToken != Some("")
    {
      TruthyStr(accessToken)
    }
  }

  /** Two logouts in a row: the second changes nothing the first did not. */
  method LogoutTwice(store: Store)
    modifies store, store.storage, store.client
    ensures store.Snapshot() == Clear(old(store.Snapshot()))
  {
    store.Logout();
    store.Logout();
    ClearIdempotent(old(store.Snapshot()));
  }
}
