/** The OAuth client's handlers (api/client/client.go): the PKCE code
    challenge, the two-slot `cache` that correlates a downstream caller with
    the callback, the `/oauth2` callback that hands the token on in a URL
    fragment, `/refresh` and the protected `/listar-itens`.

    Everything the handlers delegate to a library (SHA-256, `url.QueryUnescape`,
    `oauth2.Config.AuthCodeURL`, JWT signing and parsing, `TokenSource`, the
    JSON encoder) is a function-valued field of `Environment`, about which the
    model assumes nothing beyond its type. */
module Client {

  import opened Wrappers
  import opened Http
  import Base64Url

  type byte = Base64Url.byte

  /** A SHA-256 digest: 32 bytes. */
  type Digest = d: seq<byte> | |d| == 32 witness seq(32, i => 0)

  const StateKey: string := "state"
  const RedirectUriKey: string := "redirect_uri"

  /** The fixed PKCE verifier the client derives its challenge from. */
  const CodeVerifier: string := "s256example"
  const ChallengeMethod: string := "S256"

  const Items: string := "Vitrola, Fita cassete, Zip drive"
  /** The denial, character for character as the source file spells it
      ("n" U+221A U+00A3 "o", a mis-encoded "não"). */
  const NotAuthorized: string := "Acesso n\U{221A}\U{00A3}o autorizado"

  /** The UTF-8 encoding of one character: Go's `[]byte(s)`. */
  function Utf8Rune(c: char): (b: seq<byte>)
  {
    var n := c as int;
    if n < 0x80 then [n]
    else if n < 0x800 then [0xC0 + n / 0x40, 0x80 + n % 0x40]
    else if n < 0x10000 then [0xE0 + n / 0x1000, 0x80 + n / 0x40 % 0x40, 0x80 + n % 0x40]
    else [0xF0 + n / 0x40000, 0x80 + n / 0x1000 % 0x40, 0x80 + n / 0x40 % 0x40, 0x80 + n % 0x40]
  }

  function Utf8(s: string): (b: seq<byte>)
    decreases |s|
  {
    if s == [] then [] else Utf8Rune(s[0]) + Utf8(s[1..])
  }

  /** For ASCII text, the bytes are the character codes one for one. */
  lemma {:induction false} Utf8Ascii(s: string)
    requires forall i :: 0 <= i < |s| ==> s[i] as int < 128
    ensures |Utf8(s)| == |s|
    ensures forall i :: 0 <= i < |s| ==> Utf8(s)[i] == s[i] as int
    decreases |s|
  {
    if s != [] {
      Utf8Ascii(s[1..]);
      assert Utf8(s) == [s[0] as int] + Utf8(s[1..]);
    }
  }

  /** `genCodeChallengeS256`: the padded URL-safe base64 of the SHA-256
      digest of the verifier's bytes. */
  function GenCodeChallengeS256(sha256: seq<byte> -> Digest, s: string): string
  {
    Base64Url.Encode(sha256(Utf8(s)))
  }

  /** The challenge is 43 alphabet characters and one '='. Section 4.2 of
      RFC 7636 asks for the unpadded form, without the '='. */
  lemma ChallengeShape(sha256: seq<byte> -> Digest, s: string)
    ensures var challenge := GenCodeChallengeS256(sha256, s);
      |challenge| == 44 && challenge[43] == Base64Url.Pad &&
      forall i :: 0 <= i < 43 ==> Base64Url.IsUrlSafe(challenge[i])
  {
    var digest: seq<byte> := sha256(Utf8(s));
    assert |digest| == 32 && Base64Url.PadCount(32) == 1;
    Base64Url.EncodeShape(digest);
  }

  /** The challenge carries the whole digest: decoding gives it back. */
  lemma ChallengeDecodesToDigest(sha256: seq<byte> -> Digest, s: string)
    ensures var digest: seq<byte> := sha256(Utf8(s));
      Base64Url.Decode(GenCodeChallengeS256(sha256, s)) == Some(digest)
  {
    var digest: seq<byte> := sha256(Utf8(s));
    Base64Url.DecodeEncode(digest);
    assert GenCodeChallengeS256(sha256, s) == Base64Url.Encode(digest);
  }

  /** Two verifiers have the same challenge only if their digests agree. */
  lemma ChallengeDeterminesDigest(sha256: seq<byte> -> Digest, s1: string, s2: string)
    requires GenCodeChallengeS256(sha256, s1) == GenCodeChallengeS256(sha256, s2)
    ensures sha256(Utf8(s1)) == sha256(Utf8(s2))
  {
    ChallengeDecodesToDigest(sha256, s1);
    ChallengeDecodesToDigest(sha256, s2);
  }

  /** The URL `/oauth2` redirects to: the downstream redirect URI with the
      cached caller state, the token and its type in the fragment. Nothing is
      escaped. */
  function CallbackUrl(redirectUri: string, state: string, token: string): (url: string)
  {
    redirectUri + "#state=" + state + "&access_token=" + token + "&token_type=Bearer"
  }

  /** The text before the first `sep`, and the text after it if `sep` occurs. */
  function Cut(s: string, sep: char): (r: (string, Option<string>))
    ensures r.1.Some? ==> |r.1.value| < |s|
    decreases |s|
  {
    if s == [] then ("", None)
    else if s[0] == sep then ("", Some(s[1..]))
    else
      var (before, after) := Cut(s[1..], sep);
      ([s[0]] + before, after)
  }

  /** The text before the cut holds no separator, and the two sides with the
      separator between them give back the input. */
  lemma {:induction false} CutSplits(s: string, sep: char)
    ensures sep !in Cut(s, sep).0
    ensures Cut(s, sep).1.None? ==> Cut(s, sep).0 == s
    ensures Cut(s, sep).1.Some? ==> s == Cut(s, sep).0 + [sep] + Cut(s, sep).1.value
    decreases |s|
  {
    if s != [] && s[0] != sep {
      CutSplits(s[1..], sep);
      var (before, after) := Cut(s[1..], sep);
      assert Cut(s, sep) == ([s[0]] + before, after);
      if after.Some? {
        assert s == [s[0]] + s[1..];
      }
    }
  }

  /** Cutting at the first separator gives back the two sides. */
  lemma {:induction false} CutAtFirst(a: string, sep: char, b: string)
    requires sep !in a
    ensures Cut(a + [sep] + b, sep) == (a, Some(b))
    decreases |a|
  {
    var s := a + [sep] + b;
    if a == [] {
      assert s[0] == sep && s[1..] == b;
    } else {
      assert s[0] == a[0] && a[0] != sep;
      assert s[1..] == a[1..] + [sep] + b;
      CutAtFirst(a[1..], sep, b);
      assert [a[0]] + a[1..] == a;
    }
  }

  lemma {:induction false} CutAbsent(a: string, sep: char)
    requires sep !in a
    ensures Cut(a, sep) == (a, None)
    decreases |a|
  {
    if a != [] {
      CutAbsent(a[1..], sep);
      assert [a[0]] + a[1..] == a;
    }
  }

  /** One `key=value` item, split at its first `=`. */
  function SplitPair(item: string): (kv: (string, string))
  {
    var (key, value) := Cut(item, '=');
    (key, if value.Some? then value.value else "")
  }

  /** How a downstream page reads the fragment: `&`-separated items, each
      split at its first `=`. */
  function FragmentPairs(fragment: string): (pairs: seq<(string, string)>)
    ensures |pairs| >= 1
    decreases |fragment|
  {
    var (item, rest) := Cut(fragment, '&');
    [SplitPair(item)] + (match rest case Some(more) => FragmentPairs(more) case None => [])
  }

  lemma SplitPairAt(key: string, value: string)
    requires '=' !in key
    ensures SplitPair(key + "=" + value) == (key, value)
  {
    CutAtFirst(key, '=', value);
  }

  lemma FragmentPairsCons(item: string, rest: string)
    requires '&' !in item
    ensures FragmentPairs(item + "&" + rest) == [SplitPair(item)] + FragmentPairs(rest)
  {
    CutAtFirst(item, '&', rest);
  }

  lemma FragmentPairsLast(item: string)
    requires '&' !in item
    ensures FragmentPairs(item) == [SplitPair(item)]
  {
    CutAbsent(item, '&');
  }

  /** The fragment of a URL: everything after its first `#`. */
  function Fragment(url: string): (f: Option<string>)
  {
    Cut(url, '#').1
  }

  /** The fragment `/oauth2` writes, item by item. */
  function CallbackFragment(state: string, token: string): string {
    ("state" + "=" + state) + "&" + (("access_token" + "=" + token) + "&" + ("token_type" + "=" + "Bearer"))
  }

  lemma CallbackUrlSplits(redirectUri: string, state: string, token: string)
    requires '#' !in redirectUri
    ensures Cut(CallbackUrl(redirectUri, state, token), '#') == (redirectUri, Some(CallbackFragment(state, token)))
  {
    assert "#state=" == "#" + "state" + "=";
    assert "&access_token=" == "&" + "access_token" + "=";
    assert "&token_type=Bearer" == "&" + ("token_type" + "=" + "Bearer");
    Regroup(redirectUri, "state", state, "access_token", token, "token_type" + "=" + "Bearer");
    CutAtFirst(redirectUri, '#', CallbackFragment(state, token));
  }

  /** Concatenation regrouped from the order the URL is written in to the
      order it is read in. */
  lemma Regroup(u: string, k1: string, v1: string, k2: string, v2: string, item3: string)
    ensures u + ("#" + k1 + "=") + v1 + ("&" + k2 + "=") + v2 + ("&" + item3) ==
      u + "#" + ((k1 + "=" + v1) + "&" + ((k2 + "=" + v2) + "&" + item3))
  {
  }

  /** An item built from parts without '&' holds no '&'. */
  lemma ItemPlain(k: string, v: string)
    requires '&' !in k && '&' !in v
    ensures '&' !in k + "=" + v
  {
  }

  lemma ConsDisplay<T>(x: T, y: T, z: T)
    ensures [x] + [y, z] == [x, y, z]
  {
  }

  /** Two leading `key=value` items, for keys without '=' and items
      without '&', are read back as they were written. */
  lemma LeadingPairs(k1: string, v1: string, k2: string, v2: string, rest: string)
    requires '=' !in k1 && '&' !in k1 && '&' !in v1
    requires '=' !in k2 && '&' !in k2 && '&' !in v2
    ensures var pairs := FragmentPairs((k1 + "=" + v1) + "&" + ((k2 + "=" + v2) + "&" + rest));
      |pairs| >= 2 && pairs[..2] == [(k1, v1), (k2, v2)]
  {
    var item1, item2 := k1 + "=" + v1, k2 + "=" + v2;
    ItemPlain(k1, v1);
    ItemPlain(k2, v2);
    FragmentPairsCons(item1, item2 + "&" + rest);
    FragmentPairsCons(item2, rest);
    SplitPairAt(k1, v1);
    SplitPairAt(k2, v2);
  }

  /** Two `key=value` items are read back as they were written. */
  lemma TwoPairs(k1: string, v1: string, k2: string, v2: string)
    requires '=' !in k1 && '&' !in k1 && '&' !in v1
    requires '=' !in k2 && '&' !in k2 && '&' !in v2
    ensures FragmentPairs((k1 + "=" + v1) + "&" + (k2 + "=" + v2)) == [(k1, v1), (k2, v2)]
  {
    var item1, item2 := k1 + "=" + v1, k2 + "=" + v2;
    ItemPlain(k1, v1);
    ItemPlain(k2, v2);
    FragmentPairsLast(item2);
    FragmentPairsCons(item1, item2);
    SplitPairAt(k1, v1);
    SplitPairAt(k2, v2);
  }

  /** Three `key=value` items are read back as they were written. */
  lemma ThreePairs(k1: string, v1: string, k2: string, v2: string, k3: string, v3: string)
    requires '=' !in k1 && '&' !in k1 && '&' !in v1
    requires '=' !in k2 && '&' !in k2 && '&' !in v2
    requires '=' !in k3 && '&' !in k3 && '&' !in v3
    ensures FragmentPairs((k1 + "=" + v1) + "&" + ((k2 + "=" + v2) + "&" + (k3 + "=" + v3))) ==
      [(k1, v1), (k2, v2), (k3, v3)]
  {
    TwoPairs(k2, v2, k3, v3);
    ItemPlain(k1, v1);
    FragmentPairsCons(k1 + "=" + v1, (k2 + "=" + v2) + "&" + (k3 + "=" + v3));
    SplitPairAt(k1, v1);
    ConsDisplay((k1, v1), (k2, v2), (k3, v3));
  }

  /** The keys of the callback fragment hold neither '=' nor '&'. */
  lemma CallbackKeysPlain()
    ensures '=' !in "state" && '&' !in "state"
    ensures '=' !in "access_token" && '&' !in "access_token"
    ensures '=' !in "token_type" && '&' !in "token_type" && '&' !in "Bearer"
  {
  }

  lemma CallbackFragmentPairs(state: string, token: string)
    requires '&' !in state && '&' !in token
    ensures FragmentPairs(CallbackFragment(state, token)) ==
      [("state", state), ("access_token", token), ("token_type", "Bearer")]
  {
    CallbackKeysPlain();
    ThreePairs("state", state, "access_token", token, "token_type", "Bearer");
  }

  /** A downstream page that reads the callback URL finds its own URI, then
      exactly the cached state, the token and the type "Bearer", provided the
      URI has no fragment and neither the state nor the token holds an `&`. */
  lemma CallbackUrlParses(redirectUri: string, state: string, token: string)
    requires '#' !in redirectUri && '&' !in state && '&' !in token
    ensures Cut(CallbackUrl(redirectUri, state, token), '#').0 == redirectUri
    ensures Fragment(CallbackUrl(redirectUri, state, token)).Some?
    ensures FragmentPairs(Fragment(CallbackUrl(redirectUri, state, token)).value) ==
      [("state", state), ("access_token", token), ("token_type", "Bearer")]
  {
    CallbackUrlSplits(redirectUri, state, token);
    CallbackFragmentPairs(state, token);
  }

  /** Regrouping an item whose value holds `&k2=v2`. */
  lemma ValueSplitsItem(k1: string, prefix: string, k2: string, v2: string, rest: string)
    ensures (k1 + "=" + (prefix + ("&" + k2 + "=") + v2)) + "&" + rest ==
      (k1 + "=" + prefix) + "&" + ((k2 + "=" + v2) + "&" + rest)
  {
  }

  /** Because nothing is escaped, a caller state of the form
      `prefix&access_token=forged` cuts the state short and places a forged
      access token ahead of the issued one. */
  lemma StateCanInjectParameters(redirectUri: string, prefix: string, forged: string, token: string)
    requires '#' !in redirectUri && '&' !in prefix && '&' !in forged
    ensures var url := CallbackUrl(redirectUri, prefix + "&access_token=" + forged, token);
      Fragment(url).Some? && |FragmentPairs(Fragment(url).value)| >= 2 &&
      FragmentPairs(Fragment(url).value)[..2] == [("state", prefix), ("access_token", forged)]
  {
    var state := prefix + "&access_token=" + forged;
    var issued := ("token_type" + "=" + "Bearer");
    CallbackUrlSplits(redirectUri, state, token);
    assert "&access_token=" == "&" + "access_token" + "=";
    ValueSplitsItem("state", prefix, "access_token", forged, ("access_token" + "=" + token) + "&" + issued);
    CallbackKeysPlain();
    LeadingPairs("state", prefix, "access_token", forged, ("access_token" + "=" + token) + "&" + issued);
  }

  /** The JWT signing algorithms `jwt.Parse` can report. */
  datatype SigningMethod = Hmac(bits: int) | Rsa(bits: int) | RsaPss(bits: int) | Ecdsa(bits: int) | Ed25519 | Unsigned

  /** What `jwt.Parse` yields for a token of three segments that the handler
      looks at: whether the claims are a `jwt.MapClaims` and whether the token
      is valid. */
  datatype ParsedToken = ParsedToken(mapClaims: bool, valid: bool)

  /** How many pieces `strings.Split(s, ".")` gives: one more than the dots.
      `jwt.Parse` returns a nil token for any count other than three. */
  function Segments(s: string): nat {
    if s == [] then 1 else (if s[0] == '.' then 1 else 0) + Segments(s[1..])
  }

  /** A header without a dot, the missing header "" among them, is one
      segment, so `jwt.Parse` hands back a nil token for it. */
  lemma {:induction false} SegmentsWithoutDot(s: string)
    requires '.' !in s
    ensures Segments(s) == 1
  {
    if s != [] {
      assert '.' !in s[1..] by {
        forall i | 0 <= i < |s[1..]| ensures s[1..][i] != '.' {
          assert s[1..][i] == s[i + 1];
        }
      }
      SegmentsWithoutDot(s[1..]);
    }
  }

  type KeyFunc = SigningMethod -> Result<string>

  /** The key callback of `/listar-itens`: only an HMAC-signed token gets
      the shared secret; any other method is an error. */
  function SigningKey(secret: string, m: SigningMethod): (r: Result<string>)
    ensures r.Ok? <==> m.Hmac?
    ensures r.Ok? ==> r.value == secret
    ensures r.Err? ==> r.message == "There was an error"
  {
    if m.Hmac? then Ok(secret) else Err("There was an error")
  }

  function KeyFor(secret: string): KeyFunc {
    m => SigningKey(secret, m)
  }

  datatype Token = Token(accessToken: string, tokenType: string, refreshToken: string, expiry: int)

  /** The configuration read from the environment, and the library calls. */
  datatype Environment = Environment(
    authState: string,
    clientSecret: string,
    sha256: seq<byte> -> Digest,
    queryUnescape: string -> Result<string>,
    authCodeUrl: (string, seq<(string, string)>) -> string,
    signHs256: (map<string, string>, string) -> Result<string>,
    parseJwt: (string, KeyFunc) -> ParsedToken,   // on three-segment strings
    tokenSource: Token -> Result<Token>,
    encodeIndented: Token -> string)

  /** `url.QueryUnescape`, whose result on error is "". */
  function Unescape(env: Environment, s: string): string {
    match env.queryUnescape(s)
    case Ok(v) => v
    case Err(_) => ""
  }

  /** The extra parameters of the authorization URL: always the challenge of
      the fixed verifier, with method S256. */
  function ChallengeParams(env: Environment): seq<(string, string)> {
    [("code_challenge", GenCodeChallengeS256(env.sha256, CodeVerifier)), ("code_challenge_method", ChallengeMethod)]
  }

  /** The token `/oauth2` hands on: HS256 over fixed claims with the client
      secret; a signing error is only logged, leaving the empty string. */
  function SignedToken(env: Environment): string {
    match env.signHs256(map["username" := "test", "password" := "test"], env.clientSecret)
    case Ok(t) => t
    case Err(_) => ""
  }

  /** A request to the client: its method, its URL query, the form
      `r.ParseForm()` yields (query and body) and its Authorization header. */
  datatype ClientRequest = ClientRequest(httpMethod: string, query: Values, form: Values, authorization: string)

  datatype Route = Root | OAuth2 | Refresh | ListItems

  /** One call of a handler, with the clock reading `time.Now()` would give. */
  datatype Call = Call(route: Route, request: ClientRequest, now: int)

  class OAuthClient {
    const env: Environment
    /** `ChallengeParams(env)`, the same on every request: computed once. */
    const challengeParams: seq<(string, string)>
    var cache: map<string, string>
    var globalToken: Option<Token>

    /** The cache keeps exactly its two slots. */
    ghost predicate Valid()
      reads this
    {
      cache.Keys == {StateKey, RedirectUriKey}
    }

    constructor (env: Environment)
      ensures Valid() && this.env == env && challengeParams == ChallengeParams(env)
      ensures cache == map[StateKey := "", RedirectUriKey := ""] && globalToken == None
    {
      this.env := env;
      challengeParams := ChallengeParams(env);
      cache := map[StateKey := "", RedirectUriKey := ""];
      globalToken := None;
    }

    /** `/`: remembers the downstream redirect URI and the caller's state,
        but only when the unescaped URI is not empty, and sends the browser
        to the authorization server with the configured state. */
    method Begin(r: ClientRequest) returns (resp: Response)
      requires Valid()
      modifies this
      ensures Valid() && globalToken == old(globalToken)
      ensures r.httpMethod == Options ==> resp == Nothing && cache == old(cache)
      ensures r.httpMethod != Options ==>
        resp == Redirect(env.authCodeUrl(env.authState, challengeParams))
      ensures r.httpMethod != Options && Unescape(env, FormGet(r.query, RedirectUriKey)) != "" ==>
        cache[RedirectUriKey] == Unescape(env, FormGet(r.query, RedirectUriKey)) &&
        cache[StateKey] == FormGet(r.query, StateKey)
      ensures r.httpMethod != Options && Unescape(env, FormGet(r.query, RedirectUriKey)) == "" ==>
        cache == old(cache)
    {
      if r.httpMethod == Options {
        return Nothing;
      }
      var redirectUri := FormGet(r.query, RedirectUriKey);
      redirectUri := Unescape(env, redirectUri);
      if redirectUri != "" {
        assert StateKey != RedirectUriKey by { assert StateKey[0] != RedirectUriKey[0]; }
        cache := cache[RedirectUriKey := redirectUri];
        cache := cache[StateKey := FormGet(r.query, StateKey)];
      }
      var u := env.authCodeUrl(env.authState, challengeParams);
      resp := Redirect(u);
    }

    /** `/oauth2`: the state is checked before the code, the code's value is
        never used, and the redirect is built from the cache alone, which is
        only read, so the callback can be repeated. */
    method Callback(r: ClientRequest) returns (resp: Response)
      requires Valid()
      ensures r.httpMethod == Options ==> resp == Nothing
      ensures r.httpMethod != Options && FormGet(r.form, "state") != env.authState ==>
        resp == Error(StatusBadRequest, "State invalid")
      ensures r.httpMethod != Options && FormGet(r.form, "state") == env.authState && FormGet(r.form, "code") == "" ==>
        resp == Error(StatusBadRequest, "Code not found")
      ensures r.httpMethod != Options && FormGet(r.form, "state") == env.authState && FormGet(r.form, "code") != "" ==>
        resp == Redirect(CallbackUrl(cache[RedirectUriKey], cache[StateKey], SignedToken(env)))
    {
      if r.httpMethod == Options {
        return Nothing;
      }
      var state := FormGet(r.form, "state");
      if state != env.authState {
        return Error(StatusBadRequest, "State invalid");
      }
      var code := FormGet(r.form, "code");
      if code == "" {
        return Error(StatusBadRequest, "Code not found");
      }
      var tokenString := SignedToken(env);
      var url := cache[RedirectUriKey] + "#state=" + cache[StateKey] + "&access_token=" + tokenString + "&token_type=Bearer";
      resp := Redirect(url);
    }

    /** `/refresh`: without a token, back to `/`; with one, it is expired in
        place and refreshed, and a fresh token replaces it. */
    method RefreshToken(r: ClientRequest, now: int) returns (resp: Response)
      requires Valid()
      modifies this
      ensures Valid() && cache == old(cache)
      ensures r.httpMethod == Options ==> resp == Nothing && globalToken == old(globalToken)
      ensures r.httpMethod != Options && old(globalToken).None? ==> resp == Redirect("/") && globalToken == None
      ensures r.httpMethod != Options && old(globalToken).Some? ==>
        var expired := old(globalToken).value.(expiry := now);
        match env.tokenSource(expired)
        case Err(e) => resp == Error(StatusInternalServerError, e) && globalToken == Some(expired)
        case Ok(renewed) => resp == Body(env.encodeIndented(renewed)) && globalToken == Some(renewed)
    {
      if r.httpMethod == Options {
        return Nothing;
      }
      if globalToken.None? {
        return Redirect("/");
      }
      globalToken := Some(globalToken.value.(expiry := now));
      match env.tokenSource(globalToken.value)
      case Err(e) =>
        resp := Error(StatusInternalServerError, e);
      case Ok(renewed) =>
        globalToken := Some(renewed);
        resp := Body(env.encodeIndented(renewed));
    }

    /** `/listar-itens`: a header that is not three dot-separated segments
        (no header at all among them) gets a nil token from `jwt.Parse`, and
        reading its claims panics; otherwise the item list for a token the
        library accepts with the HMAC-only key callback, the denial for any
        other. */
    method ListItems(r: ClientRequest) returns (resp: Response)
      ensures r.httpMethod == Options ==> resp == Nothing
      ensures resp == Panic <==> r.httpMethod != Options && Segments(r.authorization) != 3
      ensures r.httpMethod != Options && '.' !in r.authorization ==> resp == Panic
      ensures r.httpMethod != Options && Segments(r.authorization) == 3 ==>
        (resp == Body(Items) || resp == Body(NotAuthorized)) &&
        (resp == Body(Items) <==>
          env.parseJwt(r.authorization, KeyFor(env.clientSecret)).mapClaims &&
          env.parseJwt(r.authorization, KeyFor(env.clientSecret)).valid)
    {
      if r.httpMethod == Options {
        return Nothing;
      }
      if '.' !in r.authorization {
        SegmentsWithoutDot(r.authorization);
      }
      if Segments(r.authorization) != 3 {
        return Panic;
      }
      var token := env.parseJwt(r.authorization, KeyFor(env.clientSecret));
      if token.mapClaims && token.valid {
        resp := Body(Items);
      } else {
        resp := Body(NotAuthorized);
      }
    }

    /** The mux: one request to one handler. */
    method Serve(c: Call) returns (resp: Response)
      requires Valid()
      modifies this
      ensures Valid()
      ensures old(globalToken).None? ==> globalToken.None?
      ensures c.route == Refresh && c.request.httpMethod != Options && old(globalToken).None? ==>
        resp == Redirect("/")
    {
      match c.route
      case Root => resp := Begin(c.request);
      case OAuth2 => resp := Callback(c.request);
      case Refresh => resp := RefreshToken(c.request, c.now);
      case ListItems => resp := ListItems(c.request);
    }

    /** Any sequence of requests served from the start: `globalToken` is only
        ever assigned on the branch where it is already set, so it stays nil
        and every `/refresh` answers with a redirect to `/`. */
    method ServeAll(calls: seq<Call>) returns (resps: seq<Response>)
      requires Valid() && globalToken == None
      modifies this
      ensures Valid() && globalToken == None
      ensures |resps| == |calls|
      ensures forall i :: 0 <= i < |calls| && calls[i].route == Refresh && calls[i].request.httpMethod != Options ==>
        resps[i] == Redirect("/")
    {
      resps := [];
      var i := 0;
      while i < |calls|
        invariant 0 <= i <= |calls|
        invariant Valid() && globalToken == None
        invariant |resps| == i
        invariant forall j :: 0 <= j < i && calls[j].route == Refresh && calls[j].request.httpMethod != Options ==>
          resps[j] == Redirect("/")
      {
        var resp := Serve(calls[i]);
        resps := resps + [resp];
        i := i + 1;
      }
    }
  }
}
