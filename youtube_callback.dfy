/**
 * The OAuth redirect page: reads `code` from the page's query, exchanges it
 * for tokens when present, and navigates exactly once.
 */
module YouTubeCallbackPage {
  import opened Common
  import opened WebUrl
  import opened Text
  import opened Storage
  import opened YouTubeAuth

  /** Where the page navigates to. */
  datatype Route = Home | AuthFailed | NoCode

  /** The target each route navigates to. */
  function RoutePath(r: Route): string {
    match r
    case Home => "/"
    case AuthFailed => "/?error=auth_failed"
    case NoCode => "/?error=no_code"
  }

  /** `new URLSearchParams(location.search)`: one leading `?` is dropped. */
  function SearchParams(search: string): seq<Param> {
    ParseQuery(if |search| > 0 && search[0] == '?' then search[1..] else search)
  }

  /** The code the page reads, or null. */
  function CodeOf(search: string): Option<string> {
    Get(SearchParams(search), "code")
  }

  /** What one run of the page does: the codes it exchanged and the routes it navigated to, in order. */
  datatype CallbackRun = CallbackRun(exchanged: seq<string>, navigated: seq<Route>)

  /**
   * `handleCallback`, with the exchange's boolean answer as a function of
   * the code: a truthy code is exchanged once and decides between home and
   * the sign-in failure; otherwise nothing is exchanged and the page reports
   * the missing code.
   */
  function HandleCallback(search: string, exchange: string -> bool): (run: CallbackRun)
    ensures |run.navigated| == 1 && |run.exchanged| <= 1
    ensures run.exchanged != [] <==> Truthy(CodeOf(search))
    ensures run.exchanged != [] ==> run.exchanged == [CodeOf(search).value]
    ensures run.navigated == [NoCode] <==> !Truthy(CodeOf(search))
    ensures run.navigated == [Home] <==> Truthy(CodeOf(search)) && exchange(CodeOf(search).value)
    ensures run.navigated == [AuthFailed] <==> Truthy(CodeOf(search)) && !exchange(CodeOf(search).value)
    ensures RoutePath(run.navigated[0]) ==
              if !Truthy(CodeOf(search)) then "/?error=no_code"
              else if exchange(CodeOf(search).value) then "/"
              else "/?error=auth_failed"
  {
    var code := CodeOf(search);
    if Truthy(code) then
      CallbackRun([code.value], [if exchange(code.value) then Home else AuthFailed])
    else
      CallbackRun([], [NoCode])
  }

  /** The exchange's answer as the page sees it: true exactly when the reply had a body. */
  function ExchangeSucceeds(c: Config, exchange: seq<Param> -> TokenReply): string -> bool {
    code => exchange(TokenRequest(c, code)).Body?
  }

  /**
   * The page's effect as a whole: the route it takes and the store it leaves,
   * with the token exchange carried out by `handleAuthCallback`.
   */
  method RunCallback(search: string, store: LocalStorage, c: Config, exchange: seq<Param> -> TokenReply)
    returns (route: Route)
    modifies store
    ensures [route] == HandleCallback(search, ExchangeSucceeds(c, exchange)).navigated
    ensures var code := CodeOf(search);
            store.items ==
              if Truthy(code) && exchange(TokenRequest(c, code.value)).Body?
              then StoreTokens(old(store.items), exchange(TokenRequest(c, code.value)))
              else old(store.items)
  {
    var code := CodeOf(search);
    if Truthy(code) {
      var success := HandleAuthCallback(store, c, code.value, exchange);
      if success {
        route := Home;
      } else {
        route := AuthFailed;
      }
    } else {
      route := NoCode;
    }
  }

  /** A page opened without a query reports the missing code. */
  lemma NoQueryNoCode(exchange: string -> bool)
    ensures HandleCallback("", exchange) == CallbackRun([], [NoCode])
  {
    assert FindFirst("", 0, {'&'}) == 0;
    assert Split("", '&') == [""];
  }
}
