# Exact Online client — a Dafny model

This project models the `Exact` class of the Exact Online API client
(`src/index.ts`). That class is the one object a program uses to:

- build the browser login URL;
- trade an authorization code for a token pair;
- refresh the tokens;
- look up the user's current division;
- send authenticated resource-API requests, which pass through one gate on
  two flags, `inUse` and `refreshing`.

It has three layers.

- **Wire** and **Urls**: the values exchanged with the outside world. These
  are token grants, replies with their status and body, the calls the client
  sends, the login URL, the two token-endpoint form bodies and the resource
  URL. A network is a `Net` value. It holds the replies the resource API and
  the token endpoint will give, in order, and a log of the calls sent so far.
  A call made when its script is used up fails the way a rejected `fetch`
  does.
- **Status** and **Protocol**: the behaviour as pure functions. `Classify`
  sorts a reply into an outcome in the same order as the `if` chain of
  `request`. `ConnectSpec`, `RefreshSpec`, `LookupSpec`, `InitializeSpec`,
  `RequestSpec` and `Dispatch` each map a session, meaning the four fields
  plus the two token slots, and a network to the session after the call,
  what the call returns or throws, and the network afterwards. The 401
  re-entry of `request` and of `getCurrentDivision` is recursion. It ends
  because every call uses up one scripted reply.
- **Client**: the class itself. `Exact` has the source's fields. It holds a
  `TokenStore` object that stands for the two token files. Every method
  updates that state in place and is proved to end exactly where the
  matching Protocol function says. **Properties** proves, over those
  functions, what the operations guarantee and where they go wrong.

The code guards the flags with `catch` blocks that clear `refreshing`
(src/index.ts:209-211) and `inUse` (src/index.ts:250-252, 376-378) on a
throw. Its 401 branches (src/index.ts:237-240, 310-320) refresh the tokens
and then re-run the same call. The model follows the code as written,
including four places where this does not work out:

- **A 204 leaves `inUse` set.** A 204 reply returns `true` at
  src/index.ts:371, before the flag is cleared at src/index.ts:373, and no
  throw reaches the `catch`. After that, every request that has a division
  to use sleeps and re-enters without end (`NoContentLeavesInUse`). On every
  other path each operation clears the flags it set
  (`SequentialCallsEndIdle`).
- **The 401 retry stalls when the request has a division to use** (the
  argument or a cached one). After a 401, `request` refreshes the tokens and
  re-enters itself while still holding `inUse`. The re-entry waits at its own
  gate and never sends the retry (`UnauthorizedRetryStalls`,
  `UnauthorizedThenOkDoesNotReturnTheBody`). When neither is present and the
  lookup finds no division either, the re-entry runs the lookup again. The
  lookup clears `inUse` (src/index.ts:246), so the retry goes out and its
  body is returned (`RetryGoesThroughWhenNoDivisionIsFound`).
- **The URL ignores the cached division.** The request URL at
  src/index.ts:294 is built from the `division` argument, never from the
  cached `currentDivision`. A request without the argument therefore
  targets `.../v1/undefined...` (`CachedDivisionIsNotInTheUrl`).
- **The token-error fallback is dead.** `'EXACT: ' + value || fallback` at
  src/index.ts:156 and 198 parses as `('EXACT: ' + value) || fallback`. The
  left side is never empty, so neither `connect` nor `refreshTokens` ever
  throws its fallback text. A missing message renders as `EXACT: undefined`
  (`TokenErrorFallbackUnreachable`, `GrantErrorsNeverFallBack`).

Three smaller consequences of the code's order:

- The body is read at src/index.ts:322-324, before the 204 test. A 204
  served as JSON with an empty body therefore throws on the parse
  (`Classify`).
- A listed error status throws `EXACT: ` followed by the body text when the
  body is a string. For example, a 429 with "slow down" throws
  `EXACT: slow down`.
- A 401 that repeats has no retry counter. With a division to use, it ends
  in the stall above.

A connected client holds a usable access token (`Inv`). Every operation
preserves this as long as the token endpoint grants only non-empty access
tokens. The source does not check the granted token. An empty one connects
a client that has none (`EmptyGrantBreaksInv`).

## Model

| member | source | states |
|---|---|---|
| Protocol.CredentialError | src/index.ts:28-30 | no error exactly when all three credentials are non-empty; otherwise the message for the first empty one, in the order clientId, clientSecret, redirectUri |
| Client.Exact.Create | src/index.ts:19-40 | an empty credential throws the message `CredentialError` gives; otherwise a fresh client with the given configuration and store, in the initial state |
| Client.Exact.constructor | src/index.ts:32-39 | the credentials are stored; not connected, both flags false, no cached division; the token slots are whatever the store holds |
| Protocol.Initial | src/index.ts:36-39 | the state after construction: not connected, not in use, not refreshing, no division, the given tokens |
| Urls.LoginParams | src/index.ts:51-54 | the login query has the keys client_id, redirect_uri, response_type, force_login, in that order |
| Urls.LoginParamsValues | src/index.ts:51-54 | each login parameter reads back as its input; force_login is "1" exactly when login is forced and "0" exactly when it is not |
| Urls.LoginUrl | src/index.ts:49-56 | the login URL is the authorization endpoint followed by "?" and the query |
| Urls.LoginUrlText | src/index.ts:42-56 | the login URL is the authorization endpoint, "?", and the four key=value fields in order, joined by "&" |
| Properties.ForcedCodeLoginUrl | src/index.ts:42-56 | a forced code-grant login URL ends in `response_type=code&force_login=1` |
| Client.TokenStore.SetAccessToken | src/index.ts:73-84 | the access slot holds the new token; the refresh slot is unchanged |
| Client.TokenStore.SetRefreshToken | src/index.ts:100-111 | the refresh slot holds the new token; the access slot is unchanged |
| Urls.CodeForm | src/index.ts:136-142 | the code-grant body has the keys code, redirect_uri, grant_type, client_id, client_secret, in that order |
| Urls.CodeFormValues | src/index.ts:136-150 | the code-grant body reads back the code, the redirect URI, the client id, the secret, and grant_type authorization_code |
| Protocol.TokenErrorText | src/index.ts:154-158 | the thrown message is always "EXACT: " followed by the message value, or "undefined" when the value is missing |
| Properties.TokenErrorFallbackUnreachable | src/index.ts:196-200 | neither fallback text of `connect` or `refreshTokens` can be the value of the error expression |
| Properties.GrantErrorsNeverFallBack | src/index.ts:154-158 | neither `connect` nor `refreshTokens` ever throws its fallback text |
| Protocol.ConnectSpec | src/index.ts:133-166 | exactly one token call with the code-grant body; success exactly when the endpoint grants tokens, and then both tokens are replaced and the client is connected; on failure the client is disconnected and nothing else changes; a rejected grant throws "EXACT: " and its message value ("undefined" when missing); an unanswered call fails as a network error |
| Client.Exact.Connect | src/index.ts:133-166 | the client, the result and the network end where `ConnectSpec` says |
| Properties.ConnectStoresGrantedTokens | src/index.ts:133-166 | exchanging a code against an endpoint that grants A/R connects, stores A and R, and sends exactly one code-grant call |
| Urls.RefreshForm | src/index.ts:179-184 | the refresh body has the keys refresh_token, grant_type, client_id, client_secret, in that order |
| Urls.RefreshFormValues | src/index.ts:179-192 | the refresh body reads back the stored refresh token, the client id, the secret, and grant_type refresh_token |
| Protocol.RefreshSpec | src/index.ts:168-213 | a refresh already running makes it return without work; otherwise `refreshing` is false at exit on every path; a missing refresh token throws before any call; otherwise one token call with the refresh body; success exactly when tokens are granted, which replace both slots; on failure the tokens are kept; resource replies and the other fields are untouched; a rejected grant throws "EXACT: " and its message value; an unanswered call fails as a network error |
| Client.Exact.RefreshTokens | src/index.ts:168-213 | the client, the result and the network end where `RefreshSpec` says |
| Protocol.LookupSpec | src/index.ts:215-254 | `inUse` is false at exit on every path; no access token throws before any call; otherwise the first call is a GET of the current-user URL with that token; a non-401 reply yields the division read from its body and caches it; a failure leaves the cache as it was; connected and refreshing are untouched; calls are only appended |
| Client.Exact.GetCurrentDivision | src/index.ts:215-254 | the client, the result and the network end where `LookupSpec` says |
| Status.ReadDivision | src/index.ts:242-249 | the division is read exactly when the body is a JSON document with a first result row, and is that row's field; any other body throws |
| Properties.LookupRetriesWithNewTokens | src/index.ts:237-240 | a 401 on the lookup, with the refresh granted, runs the lookup again from the start with the new tokens |
| Protocol.InitializeSpec | src/index.ts:113-131 | never throws; a missing token answers false with no call and no change; otherwise the answer is whether the lookup succeeded, true implies connected, and the session is the one the lookup leaves (cached division, rotated tokens, both flags) with only `connected` set on success |
| Client.Exact.Initialize | src/index.ts:113-131 | the client, the answer and the network end where `InitializeSpec` says |
| Protocol.RequestSpec | src/index.ts:271-380 | not connected throws before any call; with no division argument and none cached, the first call is the current-user GET with the access token, and a failing lookup throws its error with the lookup's session and network; with a division to use and both flags clear, a missing access token throws before any call; on every error `inUse` is false; after a 204's `true` it is still set; after a returned body it is clear; a wait re-enters with the same descriptor while a flag is set; connected and refreshing are untouched; calls are only appended |
| Protocol.Dispatch | src/index.ts:278-375 | a set flag defers without a call or change; otherwise a missing access token throws with nothing sent and nothing changed, and else the first call is the request with the descriptor's verb, `RequestUrl` and the access token; the same flag guarantees as `RequestSpec` hold |
| Client.Exact.Request | src/index.ts:256-380 | the client, the result and the network end where `RequestSpec` says |
| Status.Classify | src/index.ts:310-375 | 401 asks for reauthorization; otherwise a body that does not parse throws; otherwise exactly the listed statuses throw "EXACT: " with the string body or the status phrase; otherwise 204 returns `true` and every other status returns the body |
| Status.UnlistedFailureReturnsBody | src/index.ts:326-375 | a failing status outside the list, other than 401, returns its body rather than throwing |
| Wire.Show | src/index.ts:294 | a present value renders as itself in a concatenated string, an absent one as "undefined" |
| Urls.RequestUrl | src/index.ts:294 | every request URL starts with the resource API's base URL |
| Urls.RequestUrlParts | src/index.ts:292-294 | the URL is the base URL, the division argument and the endpoint, followed by "?" and the query exactly when the query is non-empty |
| Urls.AbsentDivisionRendersUndefined | src/index.ts:294 | without a division argument the request path starts with "undefined" right after the base URL |
| Properties.NotConnectedSendsNothing | src/index.ts:272 | a request before connecting throws "EXACT: Not connected." and sends nothing |
| Properties.LazyLookupThenDispatch | src/index.ts:274-276 | with no division argument and none cached, a successful lookup runs first and the request goes on from the session it leaves, with `inUse` clear |
| Properties.ContentionDefers | src/index.ts:278-288 | with a flag set and a division to use, a request changes nothing, sends nothing, and re-enters with the same descriptor |
| Properties.CachedDivisionIsNotInTheUrl | src/index.ts:274-294 | with a cached division and no lookup, the call goes to the URL built from the argument, which without one starts with "undefined" |
| Properties.DispatchListedStatusThrows | src/index.ts:326-369 | from any idle session holding a token, including the one a lookup leaves, a listed error status throws "EXACT: " and the body or the phrase after one call, with the session as it was |
| Properties.DispatchOtherStatusReturnsBody | src/index.ts:373-375 | from any idle session holding a token, any status other than 401, 204 and the listed ones returns the body after one call with the flag released |
| Properties.DispatchUnparsableReplyThrows | src/index.ts:322-324 | from any idle session holding a token, a non-401 reply served as JSON that does not parse throws after one call with the flag released |
| Properties.DispatchNoContentKeepsInUse | src/index.ts:371 | from any idle session holding a token, a 204 returns `true` after one call with `inUse` left set |
| Properties.ListedStatusThrows | src/index.ts:326-369 | a listed error status throws "EXACT: " and the body or the phrase, after one call, and the session ends as it started |
| Properties.OtherStatusReturnsBody | src/index.ts:373-375 | any other status except 401 and 204 returns the body after one call and releases the flag |
| Properties.UnparsableReplyThrows | src/index.ts:322-324 | a non-401 reply served as JSON that does not parse throws after one call, whatever its status, and releases the flag |
| Properties.NoContentLeavesInUse | src/index.ts:371 | a 204 returns `true` with `inUse` still set, after which any request with a division to use only waits |
| Properties.UnauthorizedRetryStalls | src/index.ts:310-320 | after a 401 and a granted refresh, the request stalls at its own gate: one resource call and one token call, new tokens stored, the next reply never fetched, `inUse` held |
| Properties.RetryGoesThroughWhenNoDivisionIsFound | src/index.ts:274-320 | with no division anywhere, a 401 then a granted refresh re-runs the lookup, which clears `inUse`, so the retry is sent and its body returned, after five calls |
| Properties.UnauthorizedThenOkDoesNotReturnTheBody | src/index.ts:278-320 | a 401 then a 200, with the refresh granted, does not return the 200 body: the second resource call is never made |
| Properties.TooManyRequestsThrowsBodyText | src/index.ts:350-356 | a 429 with the text body "slow down" throws "EXACT: slow down" after exactly one call and releases the flag |
| Properties.LookupThenTooManyRequests | src/index.ts:274-356 | a request with no division to use looks the division up and caches it, then a 429 with "slow" throws "EXACT: slow" after two calls with `inUse` clear |
| Properties.ConnectKeepsInv | src/index.ts:154-163 | when every granted access token is non-empty, a client connected after `connect` holds an access token |
| Properties.RefreshKeepsInv | src/index.ts:196-206 | under the same condition on grants, a refresh keeps a connected client's access token usable |
| Properties.LookupKeepsInv | src/index.ts:237-240 | under the same condition on grants, the lookup and its refreshes keep a connected client's access token usable |
| Properties.InitializeKeepsInv | src/index.ts:117-126 | under the same condition on grants, `initialize` connects only a client holding an access token |
| Properties.RequestKeepsInv | src/index.ts:310-320 | under the same condition on grants, a request and its refreshes keep a connected client's access token usable |
| Properties.DispatchKeepsInv | src/index.ts:310-320 | the same for the part of the request after the lookup |
| Properties.EmptyGrantBreaksInv | src/index.ts:160-163 | a granted empty access token leaves a connected client with no usable access token |
| Properties.SequentialCallsEndIdle | src/index.ts:371-379 | from an idle session, connect, refresh, the lookup and initialize end idle; a request ends idle exactly unless it returned a 204's `true` or stalled |

## Left out

- Token persistence (src/index.ts:59-111): the two JSON files under the system's temporary directory become the `TokenStore` object's two slots. A file that cannot be read or parsed is an empty slot.
- Percent-encoding by `URL` and `URLSearchParams`: keys and values appear in the URL and in form bodies as given.
- The `Accept`/`Content-Type` headers of every call: fixed values that do not affect control flow.
- The caller's `headers` of `request`: they are spread after `Authorization` (src/index.ts:305), so they can replace the bearer; the model always sends the stored access token.
- The `payload` of `request`: a payload `JSON.stringify` rejects (src/index.ts:307, a cyclic object say) throws after `inUse` is set and before any call, and the `catch` clears the flag again; the model does not represent payloads, so it has no such path.
- The `params` object of `request`: the descriptor carries the already encoded query string.
- The content-type test on a reply: a `Body` records how the body reads (as text, as parsed JSON, or as JSON that fails to parse).
- A lookup reply served as text whose text happens to be valid JSON: the lookup reads every `Text` body as a parse failure.
- A token-endpoint reply that is not JSON, or that has neither `error` nor tokens: `Grant` is either a token pair or an error whose message may be missing. A missing message stands for `undefined`: for a `null` value the source throws "EXACT: null", where `TokenErrorText` gives "EXACT: undefined".
- `sleep` (src/utils/sleep.ts is not part of this model) and timers: the contention gate returns `WaitAndRetry` with the same descriptor in place of sleeping and re-entering.
- Concurrency: each operation is modelled as one caller running alone. Interleavings of several in-flight calls at the `await` points are not modelled.
- The `console.log` warnings of `initialize`.
- Protocol.RequestSpec: does not model the unbounded re-entry after the contention gate, because one sequential caller never gets past it; it stops at `WaitAndRetry`.
- Client.Exact.GetLoginUrl: carries no contract of its own; it returns `Urls.LoginUrl`, whose text and parameters are stated by `LoginUrlText` and `LoginParamsValues`.
- Properties.ConnectKeepsInv, RefreshKeepsInv, LookupKeepsInv, InitializeKeepsInv, RequestKeepsInv: the invariant needs every granted access token to be non-empty, because the source stores whatever the token endpoint grants.
