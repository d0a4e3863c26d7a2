/**
 * Google sign-in helpers: the consent-page query, the code-for-token
 * exchange that writes both tokens into `localStorage`, sign-out and the
 * signed-in test.
 */
module YouTubeAuth {
  import opened Common
  import opened Text
  import opened WebUrl
  import opened Storage

  const AccessTokenKey := "youtube_access_token"
  const RefreshTokenKey := "youtube_refresh_token"

  const ForceSslScope := "https://www.googleapis.com/auth/youtube.force-ssl"
  const YouTubeScope := "https://www.googleapis.com/auth/youtube"

  /** The build-time client settings; their values come from the environment. */
  datatype Config = Config(clientId: string, clientSecret: string, redirectUri: string)

  // ---------------------------------------------------------------------------
  // Consent page
  // ---------------------------------------------------------------------------

  /** The requested scopes, joined by one space. */
  const Scopes := ForceSslScope + " " + YouTubeScope

  /** Two parts free of the separator, joined, split back into those two parts. */
  lemma JoinPair(a: string, b: string, sep: char)
    requires sep !in a && sep !in b
    ensures Join([a, b], sep) == a + [sep] + b
    ensures Split(a + [sep] + b, sep) == [a, b]
  {
    assert [a, b][1..] == [b];
    SplitJoin([a, b], sep);
  }

  /** The scope value is the `join(' ')` of both scopes, and splitting it on spaces gives them back in order. */
  lemma ScopesSplit()
    ensures Scopes == Join([ForceSslScope, YouTubeScope], ' ')
    ensures Split(Scopes, ' ') == [ForceSslScope, YouTubeScope]
  {
    assert ' ' !in ForceSslScope && ' ' !in YouTubeScope;
    JoinPair(ForceSslScope, YouTubeScope, ' ');
  }

  /** The query pairs appended to the consent-page URL, in append order. */
  function ConsentParams(c: Config): seq<Param> {
    [ Param("client_id", c.clientId),
      Param("redirect_uri", c.redirectUri),
      Param("response_type", "code"),
      Param("scope", Scopes),
      Param("access_type", "offline"),
      Param("prompt", "consent") ]
  }

  function Names(ps: seq<Param>): (names: seq<string>)
    ensures |names| == |ps|
    ensures forall k :: 0 <= k < |ps| ==> names[k] == ps[k].name
  {
    if ps == [] then [] else [ps[0].name] + Names(ps[1..])
  }

  /** The consent query names exactly the six parameters, once each, in append order. */
  lemma ConsentOrder(c: Config)
    ensures Names(ConsentParams(c)) ==
            ["client_id", "redirect_uri", "response_type", "scope", "access_type", "prompt"]
    ensures DistinctNames(ConsentParams(c))
  {
    var ps := ConsentParams(c);
    var names := Names(ps);
    assert names == [ps[0].name, ps[1].name, ps[2].name, ps[3].name, ps[4].name, ps[5].name];
    // The six names have six different lengths.
    assert |ps[0].name| == 9 && |ps[1].name| == 12 && |ps[2].name| == 13;
    assert |ps[3].name| == 5 && |ps[4].name| == 11 && |ps[5].name| == 6;
  }

  /**
   * Reading the consent query back gives the client's settings, an offline
   * authorization-code request with a forced consent prompt, and both
   * scopes, `youtube.force-ssl` first.
   */
  lemma ConsentValues(c: Config)
    ensures Get(ConsentParams(c), "client_id") == Some(c.clientId)
    ensures Get(ConsentParams(c), "redirect_uri") == Some(c.redirectUri)
    ensures Get(ConsentParams(c), "response_type") == Some("code")
    ensures Get(ConsentParams(c), "access_type") == Some("offline")
    ensures Get(ConsentParams(c), "prompt") == Some("consent")
    ensures Get(ConsentParams(c), "scope").Some?
    ensures Split(Get(ConsentParams(c), "scope").value, ' ') == [ForceSslScope, YouTubeScope]
  {
    var ps := ConsentParams(c);
    ConsentOrder(c);
    GetDistinct(ps, 0);
    GetDistinct(ps, 1);
    GetDistinct(ps, 2);
    GetDistinct(ps, 3);
    GetDistinct(ps, 4);
    GetDistinct(ps, 5);
    ScopesSplit();
  }

  // ---------------------------------------------------------------------------
  // Code exchange
  // ---------------------------------------------------------------------------

  /** The form body posted to the token endpoint. */
  function TokenRequest(c: Config, code: string): seq<Param> {
    [ Param("code", code),
      Param("client_id", c.clientId),
      Param("client_secret", c.clientSecret),
      Param("redirect_uri", c.redirectUri),
      Param("grant_type", "authorization_code") ]
  }

  /** The token request carries the code, the client's credentials and the grant type. */
  lemma TokenRequestFields(c: Config, code: string)
    ensures DistinctNames(TokenRequest(c, code))
    ensures Get(TokenRequest(c, code), "code") == Some(code)
    ensures Get(TokenRequest(c, code), "client_id") == Some(c.clientId)
    ensures Get(TokenRequest(c, code), "client_secret") == Some(c.clientSecret)
    ensures Get(TokenRequest(c, code), "redirect_uri") == Some(c.redirectUri)
    ensures Get(TokenRequest(c, code), "grant_type") == Some("authorization_code")
  {
    var ps := TokenRequest(c, code);
    assert DistinctNames(ps);
    GetDistinct(ps, 0);
    GetDistinct(ps, 1);
    GetDistinct(ps, 2);
    GetDistinct(ps, 3);
    GetDistinct(ps, 4);
  }

  /** A property of the parsed JSON reply: missing, `null`, or a string. */
  datatype Field = Missing | NullValue | Value(s: string)

  /** The text `setItem` stores for a field: `String(value)`. */
  function Stored(f: Field): (s: string)
    ensures f.Value? ==> s == f.s
    ensures f == Missing ==> s == "undefined"
    ensures f == NullValue ==> s == "null"
  {
    match f
    case Missing => "undefined"
    case NullValue => "null"
    case Value(s) => s
  }

  /**
   * What the token endpoint gives back: the request or the JSON parse
   * threw, the body was JSON `null` (reading a property from it throws), or
   * a JSON value whose two token properties are read whatever the HTTP status.
   */
  datatype TokenReply = ExchangeThrew | NullBody | Body(accessToken: Field, refreshToken: Field)

  /**
   * The store after both `setItem` calls of a reply with a body: both keys
   * hold the reply's text, every other key is as it was.
   */
  function StoreTokens(items: map<string, string>, reply: TokenReply): (r: map<string, string>)
    requires reply.Body?
    ensures AccessTokenKey in r && r[AccessTokenKey] == Stored(reply.accessToken)
    ensures RefreshTokenKey in r && r[RefreshTokenKey] == Stored(reply.refreshToken)
    ensures forall k :: k != AccessTokenKey && k != RefreshTokenKey ==>
              (k in r <==> k in items) && (k in items ==> r[k] == items[k])
  {
    items[AccessTokenKey := Stored(reply.accessToken)][RefreshTokenKey := Stored(reply.refreshToken)]
  }

  /**
   * `handleAuthCallback`: posts the code, and when the reply has a body
   * overwrites both token keys and answers true; when anything throws it
   * answers false and leaves the store as it was.
   */
  method HandleAuthCallback(store: LocalStorage, c: Config, code: string, exchange: seq<Param> -> TokenReply)
    returns (ok: bool)
    modifies store
    ensures var reply := exchange(TokenRequest(c, code));
            && (ok <==> reply.Body?)
            && store.items == if ok then StoreTokens(old(store.items), reply) else old(store.items)
  {
    var reply := exchange(TokenRequest(c, code));
    match reply {
      case ExchangeThrew =>
        ok := false;
      case NullBody =>
        ok := false;
      case Body(access, refresh) =>
        store.SetItem(AccessTokenKey, Stored(access));
        store.SetItem(RefreshTokenKey, Stored(refresh));
        ok := true;
    }
  }

  // ---------------------------------------------------------------------------
  // Sign-out and the signed-in test
  // ---------------------------------------------------------------------------

  /** `isAuthenticated`: signed in exactly when the access-token key holds a non-empty value. */
  function IsAuthenticated(items: map<string, string>): (r: bool)
    ensures r <==> AccessTokenKey in items && items[AccessTokenKey] != ""
  {
    Truthy(if AccessTokenKey in items then Some(items[AccessTokenKey]) else None)
  }

  /** The store after `logout`: no token key is left and every other key is as it was. */
  function WithoutTokens(items: map<string, string>): (r: map<string, string>)
    ensures AccessTokenKey !in r && RefreshTokenKey !in r
    ensures forall k :: k != AccessTokenKey && k != RefreshTokenKey ==>
              (k in r <==> k in items) && (k in items ==> r[k] == items[k])
  {
    items - {AccessTokenKey, RefreshTokenKey}
  }

  /** `logout`: removes both token keys. */
  method Logout(store: LocalStorage)
    modifies store
    ensures store.items == WithoutTokens(old(store.items))
  {
    store.RemoveItem(AccessTokenKey);
    store.RemoveItem(RefreshTokenKey);
  }

  /** After sign-out nobody is signed in. */
  lemma LogoutSignsOut(items: map<string, string>)
    ensures !IsAuthenticated(WithoutTokens(items))
  {
  }

  /**
   * After an exchange with a body the page counts as signed in unless the
   * access token was the empty string, so an error body (no `access_token`,
   * stored as "undefined") still signs in.
   */
  lemma CallbackSignsIn(items: map<string, string>, reply: TokenReply)
    requires reply.Body?
    ensures IsAuthenticated(StoreTokens(items, reply)) <==> reply.accessToken != Value("")
  {
    if reply.accessToken != Value("") {
      assert Stored(reply.accessToken) != "";
    }
  }

  /** Signing in and then out leaves the other keys as they were before signing in. */
  lemma CallbackThenLogout(items: map<string, string>, reply: TokenReply)
    requires reply.Body?
    ensures WithoutTokens(StoreTokens(items, reply)) == WithoutTokens(items)
  {
  }
}
