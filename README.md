# OAuth2 account-linking demo: handler logic in Dafny

This project models the request handlers of the account-linking demo in
`account-linking-implicit-grant-login/api`: an OAuth2 authorization server
(`server/server.go`) and the OAuth client that sits between a downstream
caller and that server (`client/client.go`). The OAuth protocol work itself
(code issuance, PKCE verification, token storage, JWT signing and parsing,
refresh) happens inside third-party libraries. The model keeps what the two
files decide around those calls and proves it.

- `wrappers.dfy` (module `Wrappers`): `Option` and `Result`.
- `http.dfy` (module `Http`): `url.Values` and its `Get`, the method names the
  handlers compare against, and `Response`, a tag for what a handler leaves in
  its response writer (nothing, a 302, an `http.Error`, a template, a body, a panic).
- `base64url.dfy` (module `Base64Url`): the padded URL-safe base64 encoder
  (section 5 of RFC 4648, as Go's `base64.URLEncoding` writes it). A strict
  decoder is its partner: decoding undoes encoding and vice versa, so the
  encoder is injective.
- `server.dfy` (module `Server`): the password check, and a class
  `AuthServer` whose `sessions` map holds each browser session's store. A
  store has two keys: `ReturnUri` keeps the parked authorize form, and
  `LoggedInUserID` keeps the one-time login claim. The `/oauth/authorize`,
  `/oauth/token`, `/login` and `/auth` handlers and `userAuthorizeHandler`
  are methods that read, set and delete these keys.
- `client.dfy` (module `Client`): `genCodeChallengeS256`, the callback URL
  and a reader for its fragment, the `/listar-itens` key callback, and a class
  `OAuthClient` whose `cache` and `globalToken` fields are the Go globals. The
  `/`, `/oauth2`, `/refresh` and `/listar-itens` handlers are its methods.

Library calls are function-valued parameters or fields about which nothing is
assumed beyond their types: SHA-256 (any function to 32 bytes),
`url.QueryUnescape`, `AuthCodeURL`, JWT signing and parsing, `TokenSource`,
the JSON encoder, and go-oauth2's `HandleAuthorizeRequest` and
`HandleTokenRequest`. Whether `session.Start` succeeds is a parameter of each
handler. The clock reading `time.Now()` is a parameter of `/refresh`.

Where the code departs from the protocol the demo is described as running,
the model follows the code:

- The code challenge is padded base64url: 43 alphabet characters and one
  `=`. Section 4.2 of RFC 7636 asks for the unpadded form.
- The challenge is always derived from the fixed verifier `"s256example"`,
  not from a fresh verifier per flow.
- `/oauth2` compares the returned state with the configured `AuthState`, not
  with the cached caller state. It never exchanges the code: it only checks
  that one is present, then signs its own HS256 token over fixed claims.
- `globalToken` is never assigned outside the branch where it is already
  set, so `/refresh` always redirects to `/` (proved by `ServeAll`).
- The callback URL is built by plain concatenation, with no query escaping.
  A caller state holding `&` can add fragment parameters of its own
  (`StateCanInjectParameters`).
- `/listar-itens` hands the whole `Authorization` header to the JWT parser.
  A header that is not three dot-separated segments, a missing header among
  them, gets a nil token back, and the handler panics on reading its claims
  instead of answering with the unauthorized text (`ListItems`).

## Model

| member | source | states |
|---|---|---|
| Server.PasswordAuthorization | account-linking-implicit-grant-login/api/server/server.go:122-127 | the user id is "test" exactly when username and password are both "test", otherwise ""; the error is always nil and the client id is ignored |
| Server.TokenEndpoint | account-linking-implicit-grant-login/api/server/server.go:103-114 | a preflight writes nothing; otherwise the library's response, or a 500 carrying the library's error text |
| Server.AuthServer.UserAuthorize | account-linking-implicit-grant-login/api/server/server.go:129-154 | a failed session start returns its error and an empty user id and changes nothing; without a claim the form is parked under `ReturnUri`, the answer is 302 to `/login` and the user id is ""; with a claim its user id is returned and the claim is deleted; only that session changes, and no claim is left behind either way |
| Server.AuthServer.Authorize | account-linking-implicit-grant-login/api/server/server.go:75-101 | a preflight or a failed session start (500) never reaches the library and changes no session; otherwise `ReturnUri` is deleted, the library gets the request with the parked form, or with the form cleared when none is parked, and a library error becomes a 400 |
| Server.AuthServer.Login | account-linking-implicit-grant-login/api/server/server.go:165-194 | preflight, session failure (500), non-POST (login page) and a form parse error (500) leave every session unchanged; a POST sets the claim to the submitted user name, with no password check, and redirects to `/auth` |
| Server.AuthServer.Auth | account-linking-implicit-grant-login/api/server/server.go:196-216 | 302 to `/login` exactly when the session holds no claim, the auth page exactly when it does; it has no `modifies` clause, so the claim is read and not consumed |
| Server.AuthServer.LoginFlow | account-linking-implicit-grant-login/api/server/server.go:136-153 | over a fresh session: the first user-handler call parks the form and returns "", the next authorize gets that form back, the claim set by `/login` is handed out once, and a repeat call finds no claim and redirects to `/login` |
| Base64Url.Encode | account-linking-implicit-grant-login/api/client/client.go:173 | `base64.URLEncoding.EncodeToString`: each group of three bytes becomes four alphabet characters and a final short group is padded with `=`; what the encoding promises is proved by the four lemmas below |
| Base64Url.EncodeShape | account-linking-implicit-grant-login/api/client/client.go:173 | an encoding of n bytes has 4 characters per started group of 3 bytes: alphabet characters followed by exactly `(3 - n % 3) % 3` padding characters |
| Base64Url.DecodeEncode | account-linking-implicit-grant-login/api/client/client.go:173 | decoding an encoding gives back the bytes |
| Base64Url.EncodeDecode | account-linking-implicit-grant-login/api/client/client.go:173 | every string the strict decoder accepts is the encoding of what it decodes to |
| Base64Url.EncodeInjective | account-linking-implicit-grant-login/api/client/client.go:173 | distinct byte strings have distinct encodings |
| Client.Utf8 | account-linking-implicit-grant-login/api/client/client.go:172 | `[]byte(s)`: the UTF-8 bytes of each character in turn; `Utf8Ascii` states it for the text the source passes |
| Client.Utf8Ascii | account-linking-implicit-grant-login/api/client/client.go:172 | `[]byte(s)` of ASCII text is the character codes, one byte each |
| Client.GenCodeChallengeS256 | account-linking-implicit-grant-login/api/client/client.go:171-174 | the padded base64url encoding of the SHA-256 digest of the verifier's bytes; its shape and its inverse are the three lemmas below |
| Client.ChallengeShape | account-linking-implicit-grant-login/api/client/client.go:171-174 | every challenge is 44 characters: 43 from the URL-safe alphabet and a final `=` |
| Client.ChallengeDecodesToDigest | account-linking-implicit-grant-login/api/client/client.go:171-174 | the challenge decodes to the SHA-256 digest of the verifier's bytes |
| Client.ChallengeDeterminesDigest | account-linking-implicit-grant-login/api/client/client.go:171-174 | equal challenges mean equal digests |
| Client.CallbackUrl | account-linking-implicit-grant-login/api/client/client.go:115-118 | the redirect URI, then a fragment of state, access_token and token_type=Bearer joined by plain concatenation; `CallbackUrlParses` and `StateCanInjectParameters` state what a reader of it gets |
| Client.CallbackUrlParses | account-linking-implicit-grant-login/api/client/client.go:115-118 | when the redirect URI has no `#` and state and token have no `&`, the callback URL reads back as the redirect URI and exactly the pairs state, access_token and token_type=Bearer |
| Client.StateCanInjectParameters | account-linking-implicit-grant-login/api/client/client.go:115-118 | a cached state `p&access_token=f` makes the fragment start with state `p` and a forged access token `f`, ahead of the issued one |
| Client.ChallengeParams | account-linking-implicit-grant-login/api/client/client.go:79-81 | the extra authorization-URL parameters: the challenge of the fixed verifier `"s256example"` and the method `S256`; `Begin` sends them on every request |
| Client.SigningKey | account-linking-implicit-grant-login/api/client/client.go:153-158 | the key callback yields the client secret exactly for HMAC methods, and the error "There was an error" otherwise |
| Client.OAuthClient.constructor | account-linking-implicit-grant-login/api/client/client.go:30-33 | the cache starts with its two slots empty, `globalToken` nil, and the challenge parameters of the fixed verifier with method S256 |
| Client.OAuthClient.Begin | account-linking-implicit-grant-login/api/client/client.go:67-84 | a preflight changes nothing; otherwise the redirect uses the configured state and the fixed challenge whatever the request; both cache slots are overwritten, state possibly with "", exactly when the unescaped redirect URI is not empty, and are untouched otherwise |
| Client.OAuthClient.Callback | account-linking-implicit-grant-login/api/client/client.go:86-120 | a wrong state is a 400 "State invalid" before the code is looked at; a missing code is a 400 "Code not found"; otherwise a 302 to the exact callback URL built from the cache and the signed token; the cache is only read, so the callback is repeatable |
| Client.OAuthClient.RefreshToken | account-linking-implicit-grant-login/api/client/client.go:122-144 | preflight changes nothing; no token redirects to `/`; otherwise the token is expired to now in place, a refresh error is a 500 that keeps the expired token, and a success stores and writes the new token; the cache is untouched |
| Client.SegmentsWithoutDot | account-linking-implicit-grant-login/api/client/client.go:159 | a header with no dot, the missing header "" among them, is one segment, so the JWT parser returns a nil token for it |
| Client.OAuthClient.ListItems | account-linking-implicit-grant-login/api/client/client.go:146-165 | the handler panics exactly when the header is not three dot-separated segments, in particular when it has no dot; otherwise the body is one of the two fixed texts, the item list exactly when the parser, given the HMAC-only key callback, reports map claims and a valid token |
| Client.OAuthClient.Serve | account-linking-implicit-grant-login/api/client/client.go:128-140 | no handler sets `globalToken` while it is nil, and `/refresh` then redirects to `/` |
| Client.OAuthClient.ServeAll | account-linking-implicit-grant-login/api/client/client.go:128-140 | from the start state, over any sequence of requests, `globalToken` stays nil and every non-preflight `/refresh` redirects to `/` |

## Left out

- go-oauth2 internals behind `HandleAuthorizeRequest` and `HandleTokenRequest` (code issuance, single-use codes, PKCE verification, redirect checks, token storage): their code is not part of this model. `Authorize` returns the request it hands to the library, but the library's own call of `userAuthorizeHandler` is not modelled; `LoginFlow` makes those calls itself, in the order the library makes them.
- go-session cookies and `store.Save`: a session is an entry of the `sessions` map, looked up by an id the request carries, and `Save` has no separate effect.
- `dumpRequest`, `outputHTML`, `log` and `fmt` output: I/O. A served template is the `Page` tag; a missing template file's 500 is not modelled.
- `setupCORS` header values: only the early return on OPTIONS is modelled.
- `main`: `.env` loading, configuration parsing, client store and TLS listeners. The configuration values the handlers read are fields of `Client.Environment`.
- `internalErrorHandler` and `responseErrorHandler`: they only log.
- SHA-256, JWT signing and parsing, `AuthCodeURL`, `TokenSource(...).Token()` and the JSON encoder: library code, taken as function-valued parameters.
- Client.OAuthClient.ListItems: the parser's result for a three-segment header is a parameter; only its segment check, which yields the nil token, is modelled. A panic is the `Panic` tag; the server's recovery and the dropped connection are not modelled.
- `http.Redirect` in the client handlers: `Redirect(loc)` is the location passed to `http.Redirect`. That call makes a relative location absolute against the request path, cleans it, and escapes non-ASCII bytes; none of this rewriting is modelled. So a callback URL built from an empty cached redirect URI, such as `#state=…`, is sent by Go as `/#state=…`, back to the client's own `/`.
- Client.Utf8Ascii: only the ASCII case of `[]byte(s)` is proved; `Utf8` is defined for every character but carries no contract of its own.
- Concurrency: the global `cache` and `globalToken` are shared by concurrent requests without a lock, and two requests of one session can interleave. Calls are modelled one at a time.
- `http.Error` appends a newline to its message; the `Error` tag holds the message without it.
