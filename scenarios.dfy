/**
 * Two scenarios of the session layer, checked from the contracts alone:
 * a reload with stored tokens followed by a 401 that a refresh repairs, and a
 * 401 whose refresh is itself rejected.
 */
module Scenarios {
  import opened Wrappers
  import opened Js
  import opened Http
  import opened Browser
  import opened Session
  import BootAxios
  import AuthStore
  import opened ApiService

  method RefreshRepairsExpiredToken() {
    var storage := new LocalStorage(map[AccessTokenKey := "T1", RefreshTokenKey := "R1"]);
    var client := new BootAxios.Client("https://example.invalid/api", storage);
    var store := new AuthStore.Store(client);
    assert store.accessToken == Some("T1");
    assert client.commonHeaders[AuthorizationHeader] == "Bearer T1";

    var api := new Api(store);
    var original := new RequestConfig("GET", "/exercise/5", map[], JNull);
    api.InterceptRequest(original);
    assert original.headers[AuthorizationHeader] == "Bearer T1";

    var answer := Response(200, JObj([("id", JNum(5))]));
    var result, calls := api.InterceptError(HttpError(Some(401), "Unauthorized"), original,
                                            Ok(Tokens("T2", "R2")), Ok(answer));
    assert calls[0].url == "/auth/refresh" && calls[0].data == RefreshBody(Some("R1"));
    assert calls[1].url == "/exercise/5" && calls[1].headers[AuthorizationHeader] == "Bearer T2";
    assert storage.items[AccessTokenKey] == "T2" && storage.items[RefreshTokenKey] == "R2";
    assert result == Ok(answer);
    // the boot client's default header still holds the old bearer, but its interceptor reads storage
    assert client.commonHeaders[AuthorizationHeader] == "Bearer T1";
    assert Lookup(client.Outgoing(map[]), AuthorizationHeader) == Some("Bearer T2");
  }

  method RejectedRefreshSignsOut() {
    var storage := new LocalStorage(map[AccessTokenKey := "T1", RefreshTokenKey := "R1", "lang" := "ru"]);
    var client := new BootAxios.Client("https://example.invalid/api", storage);
    var store := new AuthStore.Store(client);
    var api := new Api(store);
    var original := new RequestConfig("GET", "/exercise/5", map[], JNull);
    var refreshError := HttpError(Some(401), "refresh token expired");
    var result, calls := api.InterceptError(HttpError(Some(401), "Unauthorized"), original,
                                            Err(refreshError), Ok(Response(200, JNull)));
    assert result == Err(refreshError) && |calls| == 1;
    assert store.user.None? && store.accessToken.None? && store.refreshToken.None?;
    assert AccessTokenKey !in storage.items && RefreshTokenKey !in storage.items;
    assert Lookup(storage.items, "lang") == Some("ru");
    assert AuthorizationHeader !in client.commonHeaders;
    assert !store.IsAuthenticated();
  }
}
