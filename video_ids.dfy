/**
 * Video-ID derivation of the replace routine: every extracted link goes
 * through `new URL(link)`; a `youtu.be` host gives the path without its
 * leading `/`, any other host the `v` query parameter; then
 * `.filter(Boolean)` drops null and empty IDs.
 */
module VideoId {
  import opened Common
  import opened LinkScan
  import opened WebUrl
  import opened Text

  /** `String.prototype.slice(1)`. */
  function Drop1(s: string): string {
    if |s| == 0 then "" else s[1..]
  }

  /** The callback given to `extractedLinks.map`: throws when `new URL` throws. */
  function VideoIdOf(link: string): Result<Option<string>, UrlError> {
    match ParseUrl(link)
    case Err(e) => Err(e)
    case Ok(u) =>
      Ok(if u.hostname == "youtu.be" then Some(Drop1(u.pathname)) else Get(ParseQuery(u.search), "v"))
  }

  /** `.filter(Boolean)` on one mapped value: keeps a present, non-empty ID. */
  function KeptId(id: Option<string>): seq<string> {
    if Truthy(id) then [id.value] else []
  }

  /**
   * `extractedLinks.map(...).filter(Boolean)`: fails as soon as one link
   * cannot be parsed; otherwise the kept IDs, in link order.
   */
  function VideoIds(links: seq<string>): (r: Result<seq<string>, UrlError>)
    ensures r.Ok? <==> forall k :: 0 <= k < |links| ==> ParseUrl(links[k]).Ok?
    ensures r.Ok? ==> |r.value| <= |links|
    ensures r.Ok? ==> forall k :: 0 <= k < |r.value| ==> r.value[k] != ""
  {
    if links == [] then Ok([])
    else match VideoIdOf(links[0])
      case Err(e) => Err(e)
      case Ok(id) =>
        match VideoIds(links[1..])
        case Err(e) => Err(e)
        case Ok(rest) =>
          assert forall k :: 1 <= k < |links| ==> links[k] == links[1..][k - 1];
          Ok(KeptId(id) + rest)
  }

  /** What the derivation gives for a link of form `f` whose ID run is `id`. */
  function ExpectedVideoId(f: LinkForm, id: string): Result<Option<string>, UrlError> {
    if f.scheme == NoScheme then Err(InvalidUrl)
    else if f.host == Short && f.www then Ok(None)
    else Ok(Some(id))
  }

  /** The URL that a link of form `f` with ID `id` spells out, when it has a scheme. */
  function LinkUrl(f: LinkForm, id: string): Url
    requires f.scheme != NoScheme
  {
    var protocol := if f.scheme == Https then "https:" else "http:";
    match f.host
    case Short => Url(protocol, WwwText(f.www) + "youtu.be", "/" + id, "")
    case Watch => Url(protocol, WwwText(f.www) + "youtube.com", "/watch", "v=" + id)
  }

  /** ID characters never include the query separators, and `new URL` keeps them in a path or a query. */
  lemma IdCharsArePlain(id: string)
    requires AllIdChars(id)
    ensures '&' !in id && '=' !in id
    ensures ValidPath(id) && ValidQuery(id)
  {
    forall k | 0 <= k < |id| ensures id[k] !in {'&', '='} && IsPathChar(id[k]) && IsQueryChar(id[k]) {
      assert IsIdChar(id[k]);
    }
  }

  /** A `youtu.be/` link with a scheme is the written form of its URL. */
  lemma ShortIsHref(f: LinkForm, id: string)
    requires f.scheme != NoScheme && f.host == Short
    ensures Prefix(f) + id == Href(LinkUrl(f, id))
  {
    var u := LinkUrl(f, id);
    var a, w, h := u.protocol, WwwText(f.www), "youtu.be";
    assert SchemeText(f.scheme) == a + "//";
    assert HostText(Short) == h + "/";
    assert u.hostname == w + h && u.pathname == "/" + id && u.search == "";
    calc {
      Prefix(f) + id;
      (a + "//") + w + (h + "/") + id;
      a + "//" + (w + h) + ("/" + id) + "";
    }
  }

  /** A `youtube.com/watch?v=` link with a scheme is the written form of its URL. */
  lemma WatchIsHref(f: LinkForm, id: string)
    requires f.scheme != NoScheme && f.host == Watch
    ensures Prefix(f) + id == Href(LinkUrl(f, id))
  {
    var u := LinkUrl(f, id);
    var a, w, h, v := u.protocol, WwwText(f.www), "youtube.com", "v=";
    assert SchemeText(f.scheme) == a + "//";
    assert HostText(Watch) == h + "/watch" + "?" + v;
    assert u.hostname == w + h && u.pathname == "/watch" && u.search == v + id;
    assert u.search != "";
    assert Prefix(f) + id == (a + "//") + w + (h + "/watch" + "?" + v) + id;
    WatchPieces(a, w, h, v, id);
  }

  /** The pieces of a watch link regrouped as the parts of its URL. */
  lemma WatchPieces(a: string, w: string, h: string, v: string, id: string)
    ensures (a + "//") + w + (h + "/watch" + "?" + v) + id == a + "//" + (w + h) + "/watch" + ("?" + (v + id))
  {
  }

  /** The host a link spells out is one `new URL` keeps as it is. */
  lemma LinkHostPlain(f: LinkForm, id: string)
    requires f.scheme != NoScheme
    ensures var host := LinkUrl(f, id).hostname;
            host != "" && ValidHost(host)
  {
    var w := WwwText(f.www);
    var h := if f.host == Short then "youtu.be" else "youtube.com";
    assert LinkUrl(f, id).hostname == w + h;
    assert ValidHost("www.");
    assert ValidHost("youtu.be") && ValidHost("youtube.com");
    ValidConcat(w, h);
  }

  /** A link with a scheme is the written form of its URL, and that URL is well formed. */
  lemma LinkIsHref(f: LinkForm, id: string)
    requires f.scheme != NoScheme && id != "" && AllIdChars(id)
    ensures Prefix(f) + id == Href(LinkUrl(f, id))
    ensures WellFormed(LinkUrl(f, id))
  {
    IdCharsArePlain(id);
    LinkHostPlain(f, id);
    var u := LinkUrl(f, id);
    if f.host == Short {
      ShortIsHref(f, id);
      assert ValidPath("/");
      ValidConcat("/", id);
    } else {
      WatchIsHref(f, id);
      assert ValidPath("/watch") && ValidQuery("v=");
      ValidConcat("v=", id);
    }
  }

  /** A link without a scheme is not a URL: `new URL` throws. */
  lemma NoSchemeThrows(f: LinkForm, id: string)
    requires f.scheme == NoScheme
    ensures ParseUrl(Prefix(f) + id).Err?
  {
    var s := Prefix(f) + id;
    var head := if f.www then WwwText(f.www) else HostText(f.host);
    assert s[0] == head[0] && head[0] != 'h' by {
      assert Prefix(f) == WwwText(f.www) + HostText(f.host);
    }
    Mismatch(s, 0, "https://", 0);
    Mismatch(s, 0, "http://", 0);
  }

  /** The empty query has no `v`. */
  lemma EmptyQueryHasNoV()
    ensures Get(ParseQuery(""), "v") == None
  {
    assert FindFirst("", 0, {'&'}) == 0;
    assert Split("", '&') == [""];
  }

  /** The query `v=<id>` gives `id`. */
  lemma SingleVQuery(id: string)
    requires '&' !in id
    ensures Get(ParseQuery("v=" + id), "v") == Some(id)
  {
    var ps := [Param("v", id)];
    assert "v" + "=" == "v=";
    assert Pieces(ps)[0] == "v" + "=" + id == "v=" + id;
    assert QueryString(ps) == "v=" + id;
    ParseQueryString(ps);
  }

  /**
   * What the derivation gives for a whole link of each form: the ID run for
   * `youtu.be/` and for `youtube.com/watch?v=` (with or without `www.`),
   * nothing for `www.youtu.be/` (its host is not exactly `youtu.be`), and a
   * failure for a link without a scheme.
   */
  lemma LinkVideoId(f: LinkForm, id: string)
    requires id != "" && AllIdChars(id)
    ensures VideoIdOf(Prefix(f) + id) == ExpectedVideoId(f, id)
  {
    if f.scheme == NoScheme {
      NoSchemeThrows(f, id);
    } else {
      LinkIsHref(f, id);
      ParseHref(LinkUrl(f, id));
      UrlVideoId(f, id, Prefix(f) + id);
    }
  }

  /** What the derivation reads from the URL a link with a scheme spells out. */
  lemma UrlVideoId(f: LinkForm, id: string, link: string)
    requires f.scheme != NoScheme && id != "" && AllIdChars(id)
    requires ParseUrl(link) == Ok(LinkUrl(f, id))
    ensures VideoIdOf(link) == ExpectedVideoId(f, id)
  {
    IdCharsArePlain(id);
    var u := LinkUrl(f, id);
    match f.host {
      case Short =>
        if f.www {
          assert u.hostname == "www.youtu.be";
          EmptyQueryHasNoV();
        } else {
          assert u.hostname == "youtu.be";
          assert Drop1(u.pathname) == id;
        }
      case Watch =>
        assert |u.hostname| >= 11;
        SingleVQuery(id);
    }
  }

  /** The same for a link as the scanner returns it. */
  lemma ScannedVideoId(f: LinkForm, link: string)
    requires IsLinkOf(f, link)
    ensures VideoIdOf(link) == ExpectedVideoId(f, link[|Prefix(f)|..])
  {
    var id := link[|Prefix(f)|..];
    assert link == Prefix(f) + id;
    LinkVideoId(f, id);
  }

  /** Links that the scanner accepted, each with the form it was matched as. */
  predicate ScannedLinks(fs: seq<LinkForm>, links: seq<string>) {
    |fs| == |links| && forall k :: 0 <= k < |links| ==> IsLinkOf(fs[k], links[k])
  }

  /** Dropping the first link keeps the rest scanned. */
  lemma ScannedTail(fs: seq<LinkForm>, links: seq<string>)
    requires ScannedLinks(fs, links) && links != []
    ensures ScannedLinks(fs[1..], links[1..])
  {
    assert forall k :: 1 <= k < |links| ==> fs[1..][k - 1] == fs[k] && links[1..][k - 1] == links[k];
  }

  /**
   * The IDs scanned links carry, read off the text alone: the run after each
   * link's prefix, in link order, skipping `www.youtu.be` links.
   */
  function ScannedIds(fs: seq<LinkForm>, links: seq<string>): seq<string>
    requires ScannedLinks(fs, links)
  {
    if links == [] then []
    else
      ScannedTail(fs, links);
      (if fs[0].host == Short && fs[0].www then [] else [links[0][|Prefix(fs[0])|..]])
      + ScannedIds(fs[1..], links[1..])
  }

  /**
   * On scanned links that all carry a scheme, the derivation succeeds and
   * gives exactly the IDs read off the text.
   */
  lemma {:induction false} VideoIdsOfScanned(fs: seq<LinkForm>, links: seq<string>)
    requires ScannedLinks(fs, links)
    requires forall k :: 0 <= k < |fs| ==> fs[k].scheme != NoScheme
    ensures VideoIds(links) == Ok(ScannedIds(fs, links))
  {
    if links != [] {
      ScannedVideoId(fs[0], links[0]);
      ScannedTail(fs, links);
      VideoIdsOfScanned(fs[1..], links[1..]);
    }
  }

  /** Link `link` of form `f` carries `x`: `x` is the run after its prefix, and it is not a `www.youtu.be` link. */
  predicate CarriesId(f: LinkForm, link: string, x: string) {
    !(f.host == Short && f.www) && |Prefix(f)| <= |link| && x == link[|Prefix(f)|..]
  }

  /** An ID is among those read off scanned links exactly when one of the links carries it. */
  lemma {:induction false} ScannedIdsMembers(fs: seq<LinkForm>, links: seq<string>, x: string)
    requires ScannedLinks(fs, links)
    ensures x in ScannedIds(fs, links) <==> exists k :: 0 <= k < |links| && CarriesId(fs[k], links[k], x)
  {
    if links != [] {
      ScannedTail(fs, links);
      ScannedIdsMembers(fs[1..], links[1..], x);
      if k :| 1 <= k < |links| && CarriesId(fs[k], links[k], x) {
        assert CarriesId(fs[1..][k - 1], links[1..][k - 1], x);
      }
      if k :| 0 <= k < |links| - 1 && CarriesId(fs[1..][k], links[1..][k], x) {
        assert CarriesId(fs[k + 1], links[k + 1], x);
      }
    }
  }

  /** A short link gives its path: `https://youtu.be/ABC123` gives `ABC123`. */
  lemma ShortLinkExample(link: string)
    requires link == "https://youtu.be/ABC123"
    ensures VideoIdOf(link) == Ok(Some("ABC123"))
  {
    var f, id := LinkForm(Https, false, Short), "ABC123";
    assert AllIdChars(id);
    assert link == Prefix(f) + id;
    LinkVideoId(f, id);
  }

  /** A `www.youtu.be` link gives nothing: its host is not exactly `youtu.be` and it has no `v`. */
  lemma WwwShortLinkExample(link: string)
    requires link == "https://www.youtu.be/ABC123"
    ensures VideoIdOf(link) == Ok(None)
  {
    var f, id := LinkForm(Https, true, Short), "ABC123";
    assert AllIdChars(id);
    assert link == Prefix(f) + id;
    LinkVideoId(f, id);
  }

  /** A link without a scheme makes `new URL` throw. */
  lemma BareLinkExample(link: string)
    requires link == "youtu.be/ABC123"
    ensures VideoIdOf(link).Err?
  {
    var f, id := LinkForm(NoScheme, false, Short), "ABC123";
    assert link == Prefix(f) + id;
    NoSchemeThrows(f, id);
  }

  /**
   * A watch link gives its `v`: `https://www.youtube.com/watch?v=XYZ789`
   * gives `XYZ789`. A message holding `...watch?v=XYZ789&list=foo` yields
   * this link, since the ID run stops at `&` (`LinkScan.LinkHasNoAmpersand`).
   */
  lemma WatchLinkExample(link: string)
    requires link == "https://www.youtube.com/watch?v=XYZ789"
    ensures VideoIdOf(link) == Ok(Some("XYZ789"))
  {
    var f, id := LinkForm(Https, true, Watch), "XYZ789";
    WatchExampleParts(link, f, id);
    LinkVideoId(f, id);
  }

  /** The example watch link is the `https://www.` watch prefix followed by its ID run. */
  lemma WatchExampleParts(link: string, f: LinkForm, id: string)
    requires link == "https://www.youtube.com/watch?v=XYZ789"
    requires f == LinkForm(Https, true, Watch) && id == "XYZ789"
    ensures link == Prefix(f) + id && AllIdChars(id)
  {
    assert Prefix(f) == "https://www.youtube.com/watch?v=" by {
      assert Prefix(f) == "https://" + "www." + "youtube.com/watch?v=";
    }
    assert AllIdChars(id);
  }
}
