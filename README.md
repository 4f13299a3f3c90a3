# Session and token lifecycle of the admin console's HTTP layer

This project models, in Dafny, the client-side session layer of the fitness
platform's administration console: the auth store that keeps the signed-in
user and the access/refresh token pair, the way those tokens are mirrored
into `localStorage` and into the boot client's default `Authorization`
header, the two axios clients with their request and response interceptors
(including the refresh-once-on-401 logic), the query builder of
`exerciseApi.getAll`, and the exercise store's loading/error state machine.

Every awaited call (login, refresh, the resent request, the exercise API
calls) is a parameter holding what that call settles to (`Ok` or `Err`), so
all behaviour is sequential and stated as pre/postconditions.

Layout, one module per source file plus shared modules:

- `wrappers.dfy` (`Wrappers`): `Option`, `Result`, map lookup.
- `js.dfy` (`Js`): JSON values, JavaScript truthiness, `||`, property reads
  (a read of `null` throws), `String(value)`.
- `browser.dfy` (`Browser`): `localStorage` as a class over a `map<string, string>`.
- `http.dfy` (`Http`): request configs (a class that interceptors mutate),
  requests, responses, failures, and the bearer rule `AttachBearer` that both
  request interceptors follow.
- `session.dfy` (`Session`): the session as a value (store fields, storage,
  default headers) and each transition as a function; the invariant `Synced`
  (each token field equals its storage entry, null meaning absent).
- `boot_axios.dfy` (`BootAxios`): the boot client.
- `auth_store.dfy` (`AuthStore`): the auth store as a class whose methods are
  proved to perform the `Session` transitions.
- `api_service.dfy` (`ApiService`): the services client and its interceptors.
- `form_urlencoded.dfy` (`FormUrlEncoded`): `URLSearchParams` (UTF-8,
  form-urlencoding, serializer and parser).
- `exercise_api.dfy` (`ExerciseApi`): `exerciseApi.getAll`.
- `exercise_store.dfy` (`ExerciseStore`): the exercise store.
- `scenarios.dfy` (`Scenarios`): two scenarios (a refresh that repairs
  an expired token; a refresh that is itself rejected) proved from the
  contracts alone.

Three behaviours of the code worth noting:

- `isAuthenticated` is `!!accessToken`, so an empty-string token counts as
  signed out, not only a null one.
- The refresh path does not go through `setAuthData`: it writes the two token
  fields and the two storage keys directly, and leaves the user and the boot
  client's default `Authorization` header as they were. The boot client still
  sends the new token, because its interceptor reads storage
  (`Scenarios.RefreshRepairsExpiredToken` proves this). When the refresh
  returns an empty access token, the two clients disagree. The session is then
  in sync and signed out, so the services client sends no bearer. The boot
  client's interceptor adds none for an empty token either, but it keeps the
  stale `Bearer <old token>` default (`ApiService.EmptyRefreshedTokenKeepsStaleDefault`).
- The comment at src/services/api.ts:27 speaks of leaving the refresh request
  itself alone, but the condition only tests `_retry`. The refresh request is
  a fresh config without that marker and the handler does not check its URL,
  so nothing bounds a chain of refreshes to depth 1. The model does not claim
  such a bound.

## Model

| member | source | states |
|---|---|---|
| `Session.Init` | src/stores/auth.ts:19-24 | at creation the user is null and each token equals its stored value (null when absent), so the store starts in sync with storage; the default Authorization header becomes the bearer of the stored access token exactly when that token is truthy, and is otherwise left as it was |
| `AuthStore.Store.constructor` | src/stores/auth.ts:19-24 | store creation performs `Session.Init` on the storage and client defaults as they were, and shares its localStorage with the boot client |
| `Session.SetAuth` | src/stores/auth.ts:26-35 | afterwards the user, both token fields, both storage keys and the default Authorization header all reflect the response, the store is in sync with storage, and every other key and header is unchanged |
| `AuthStore.Store.SetAuthData` | src/stores/auth.ts:26-35 | the store, storage and client defaults end exactly as `Session.SetAuth` of their previous values |
| `Session.Clear` | src/stores/auth.ts:37-44 | afterwards user and both tokens are null, both storage keys are absent, the default Authorization header is deleted, the store is in sync with storage, and every other storage key and header is unchanged |
| `AuthStore.Store.ClearAuthData` | src/stores/auth.ts:37-44 | the store, storage and client defaults end exactly as `Session.Clear` of their previous values |
| `AuthStore.Store.Login` | src/stores/auth.ts:46-52 | posts `{email, password}` to `/auth/login-by-email` through the boot client; on success the state is `Session.SetAuth` of the response; on failure the same error is returned and no field, key or header changes |
| `AuthStore.Store.Logout` | src/stores/auth.ts:68-70 | logout performs `Session.Clear` |
| `Session.ClearIdempotent` | src/stores/auth.ts:37-44 | logging out twice gives the same state as logging out once |
| `AuthStore.LogoutTwice` | src/stores/auth.ts:68-70 | two consecutive logouts on the store end in `Session.Clear` of the state before the first |
| `Session.ClearForgetsLogin` | src/stores/auth.ts:37-44 | logging out after a login ends in the same state as logging out without it: nothing of the login survives |
| `Session.IsAuthenticated` | src/stores/auth.ts:72-74 | true exactly when the access token is neither null nor the empty string |
| `AuthStore.Store.IsAuthenticated` | src/stores/auth.ts:72-74 | true exactly when the store's access token field is neither null nor empty |
| `Session.AuthenticatedIffStoredToken` | src/stores/auth.ts:20-21 | while store and storage are in sync, being signed in is equivalent to storage holding a non-empty access token |
| `Http.AttachBearer` | src/services/api.ts:11-18 | with a truthy token the Authorization header is its bearer form; with a null or empty token the headers are returned unchanged; no other header is ever touched |
| `ApiService.Api.constructor` | src/services/api.ts:6-8 | the services client is created with base URL `https://aivy.mobgroup.kz/api` and reads its token from the auth store |
| `ApiService.Api.InterceptResponse` | src/services/api.ts:22 | the fulfilled handler hands a response to the caller with its status and body unchanged |
| `ApiService.Api.InterceptRequest` | src/services/api.ts:11-18 | the config's headers become `AttachBearer` of its old headers and the store's access token field; the retry marker is untouched |
| `ApiService.Api.InterceptError` | src/services/api.ts:21-56 | an error that is not a 401, or a 401 already retried, is rejected with the same error, with no request and no state change; a first 401 sets `_retry`, issues `POST /auth/refresh` carrying the store's refresh token; on refresh success the store and storage take the new pair (`Session.Refresh`), the original request is resent once with the new bearer, and the resend's outcome is returned; on refresh failure the session is cleared (`Session.Clear`) and the refresh error is returned |
| `ApiService.Api.IssueRefresh` | src/services/api.ts:33-35 | the refresh request is `POST /auth/refresh` with the store's refresh token in its body, carrying the bearer of the store's current access token when that is truthy |
| `ApiService.Api.StoreTokens` | src/services/api.ts:39-42 | writing the refreshed pair leaves the store, storage and defaults as `Session.Refresh` of their previous values |
| `ApiService.Api.Resend` | src/services/api.ts:45-46 | the resent request carries exactly the original headers with Authorization replaced by the new bearer, and keeps `_retry` |
| `ApiService.RefreshBody` | src/services/api.ts:33-35 | the refresh body is the single field `refreshToken`, the token as a string, or JSON `null` when there is none |
| `Session.Refresh` | src/services/api.ts:36-42 | both token fields and both storage keys hold the new pair, the store is in sync with storage, the user and the boot client's default headers are unchanged, and other keys are kept |
| `Session.RefreshForgetsOldPair` | src/services/api.ts:39-42 | after a refresh, storage does not depend on the pair it held before |
| `ApiService.EmptyRefreshedTokenKeepsStaleDefault` | src/services/api.ts:37-42 | after a reload with `T1` and a refresh that returns an empty access token, the session is in sync and signed out, the services client adds no bearer, yet the boot client's default header still holds `Bearer T1` |
| `BootAxios.Client.Prepared` | src/boot/axios.ts:21-27 | the headers of a request before its interceptor runs: its own headers win over the creation-time headers, which win over the common defaults, and the keys are exactly the union of the three |
| `ApiService.ClientsAgree` | src/services/api.ts:11-18 | while store and storage are in sync, the services client (reading the store) and the boot client (reading storage) send the same bearer header when signed in, and neither adds one when signed out |
| `ExerciseApi.GetAll` | src/services/api.ts:65-75 | the loop appends exactly the kept pairs of the entries, so the requested path is `/exercise?` followed by their serialization |
| `ExerciseApi.GetAllUrl` | src/services/api.ts:74 | the path always starts with `/exercise?`, even with no parameters |
| `ExerciseApi.GetAllUrlParses` | src/services/api.ts:65-74 | parsing the query of the requested path gives back exactly the kept pairs of the entries |
| `ExerciseApi.KeptPairsMembership` | src/services/api.ts:68-72 | a pair is in the query exactly when some entry with a value other than null or undefined produced it as `key=String(value)` |
| `ExerciseApi.KeptPairsConcat` | src/services/api.ts:68-72 | the pairs for consecutive runs of entries follow one another, so entry order is kept |
| `ExerciseApi.KeptPairsAllKept` | src/services/api.ts:68-72 | when no value is nullish every entry is appended, in order, repeats included |
| `ExerciseApi.KeptPairsNoneKept` | src/services/api.ts:69 | entries whose values are all null or undefined add nothing |
| `ExerciseApi.FalsyValuesKept` | src/services/api.ts:69-70 | `0`, `false` and `""` are appended as `0`, `false` and the empty string, while null and undefined are dropped |
| `ExerciseApi.NumberHasEmptyQuery` | src/services/api.ts:68 | a number has no own entries, so the request for it has an empty query |
| `Js.ToJsString` | src/services/api.ts:70 | `value.toString()`: a string stays itself, a boolean is `true`/`false`, an integer is its decimal form |
| `Js.DecimalRoundTrip` | src/services/api.ts:70 | reading the decimal form of a number back gives the number |
| `Js.IntToDecimalInjective` | src/services/api.ts:70 | different integers get different strings |
| `FormUrlEncoded.SearchParams.Append` | src/services/api.ts:70 | `append` adds the pair at the end and keeps every earlier pair |
| `FormUrlEncoded.SearchParams.ToString` | src/services/api.ts:74 | the serialization parses back to exactly the appended pairs |
| `FormUrlEncoded.SerializeRoundTrip` | src/services/api.ts:74 | parsing the serialization of any pair list gives that list back, order and repeats included |
| `FormUrlEncoded.EncodeRoundTrip` | src/services/api.ts:74 | form-urlencoding a name or value loses nothing: it decodes back to the same string |
| `FormUrlEncoded.Utf8RoundTrip` | src/services/api.ts:74 | the UTF-8 bytes of a string decode back to the string |
| `FormUrlEncoded.EncodeUnreserved` | src/services/api.ts:74 | names and values made of ASCII letters, digits and `*-._` are sent as they are |
| `FormUrlEncoded.Encode` | src/services/api.ts:74 | an encoded name or value never contains `&` or `=`, so pairs stay separable |
| `BootAxios.Client.constructor` | src/boot/axios.ts:21-27 | the boot client is created with `Content-Type: application/json`, credentials included and no common headers |
| `BootAxios.Client.InterceptRequest` | src/boot/axios.ts:30-36 | the config's headers become `AttachBearer` of its old headers and the access token read from localStorage; the retry marker is untouched |
| `BootAxios.Client.Outgoing` | src/boot/axios.ts:30-36 | with a truthy stored token a request leaves with its bearer form (overriding a stale default); without one it leaves with the merged default and own headers unchanged |
| `BootAxios.Client.InterceptResponse` | src/boot/axios.ts:39-45 | a response reaches the caller unchanged and a rejection is rejected again with the same error; nothing else changes |
| `ExerciseStore.Store.constructor` | src/stores/exercise.ts:7-13 | the store starts with an empty list, no current exercise, total 0, page 1, limit 10, not loading and no error |
| `ExerciseStore.Normalise` | src/stores/exercise.ts:21-22 | reading a null body fails (and only then); for an object body the list is its `data` field when that is truthy and otherwise the body itself, and the total is `pagination.totalElements` when that is truthy, else `total` when that is truthy, else 0 (a missing or null `pagination` giving undefined); a body that is not an object gives the body itself as the list and total 0 |
| `ExerciseStore.DocumentedShape` | src/stores/exercise.ts:21-22 | for a `{data, pagination: {totalElements}}` body the list is `data` and the total is `totalElements` |
| `ExerciseStore.ZeroTotalElementsFallsThrough` | src/stores/exercise.ts:22 | a `totalElements` of 0 is falsy, so a non-zero `total` beside it becomes the total |
| `ExerciseStore.BareArrayBody` | src/stores/exercise.ts:21-22 | a bare array body is itself the list, with total 0 |
| `ExerciseStore.AfterFetch` | src/stores/exercise.ts:19-27 | after a failed call, or a null body, list and total are unchanged; otherwise they are the normalised body |
| `ExerciseStore.Store.FetchExercises` | src/stores/exercise.ts:17-28 | requests `GetAllUrl(params)`, leaves list and total as `AfterFetch` says, never touches `error` or the current exercise, and ends with `loading` false |
| `ExerciseStore.Store.FetchExerciseById` | src/stores/exercise.ts:30-42 | the error is cleared first; on success the current exercise is the body, on failure the error is the load message and the current exercise is kept; `loading` ends false |
| `ExerciseStore.Store.CreateExercise` | src/stores/exercise.ts:44-56 | on failure the error is the create message and no refetch happens; on success the error is null and the list is refetched with the empty query `/exercise?`; `loading` ends false |
| `ExerciseStore.Store.UpdateExercise` | src/stores/exercise.ts:58-70 | the same with the update message |
| `ExerciseStore.Store.DeleteExercise` | src/stores/exercise.ts:72-84 | the same with the delete message |

## Left out

- Real networking and axios internals: URL joining with the base URL, header
  normalisation, axios's own default headers (`Accept`) and the automatic
  JSON `Content-Type`, and promise machinery. Each awaited call is an `Ok`/`Err`
  parameter.
- The boot function that sets `defaults.paramsSerializer = {indexes: null}`
  and registers `$http` (src/boot/axios.ts:47-52): its meaning lives inside
  axios and the framework.
- The refresh request's own pass through the response interceptor: if it
  fails with 401, the handler would start another refresh. The model takes
  the refresh outcome as given and does not model those nested side effects.
- Concurrency: interleaved 401s each start their own refresh. Requests are
  modelled one at a time.
- `loginWithGoogle` (src/stores/auth.ts:54-66): it only assigns a constant URL
  to `window.location`, which is browser navigation.
- `console.error` logging, and Vue/Pinia reactivity: refs are plain fields,
  and the intermediate `loading = true` is not observable between steps.
- The exercise store's unused `search` and `typeId` refs (src/stores/exercise.ts:14-15).
- The plain forwarding wrappers (`authApi`, `getById`, `create`, `update`,
  `delete`, and the module, marathon and category APIs): they only forward
  parameters to endpoints. Their results are the oracle parameters of the
  store methods.
- The route table, the type-only files and the build configuration.
- `AuthStore.Store.Login`: the login body is assumed to have the declared
  shape. A body without `tokens` would throw inside `setAuthData` after the
  user was already assigned; that partial update is not modelled.
- `ApiService.Api.InterceptError`: the refresh tokens are modelled as strings.
  A body without a `tokens` object is a TypeError caught like any refresh
  failure, and the model covers that. Token fields that are not strings, which
  `setItem` would store as their string form, are not modelled.
- `ExerciseApi.GetAll`: a record's entries are taken in the order given. The
  JavaScript rule that integer-like keys come first is not modelled. Strings,
  booleans and null as the whole argument are not modelled either; a number
  has no entries.
- `Js.ToJsString`: numbers are integers and are always printed in plain
  decimal. JavaScript prints integers of magnitude 10^21 or more in exponent
  form (`1e+21`), and integers beyond 2^53 are not represented exactly; neither
  is modelled, nor is floating-point formatting.
- `FormUrlEncoded.Utf8`: a JavaScript string can hold a lone surrogate, which
  `URLSearchParams` replaces by U+FFFD before UTF-8 encoding. A Dafny `char`
  cannot hold a lone surrogate, so that replacement is not modelled.
