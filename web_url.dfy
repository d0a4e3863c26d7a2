/**
 * A model of the part of the WHATWG URL parser and of `URLSearchParams` that
 * the pages rely on: `new URL(s)` for `http:`/`https:` strings (hostname,
 * pathname, search) and `get` on the pairs of a query string. The model only
 * splits at separators; it agrees with the real parser on the URLs that
 * scanned links spell out, and is not claimed to agree beyond them.
 */
module WebUrl {
  import opened Common
  import opened Text

  // ---------------------------------------------------------------------------
  // URLSearchParams
  // ---------------------------------------------------------------------------

  datatype Param = Param(name: string, value: string)

  /** The position of the first pair named `name`, or `|ps|` when there is none. */
  function FindParam(ps: seq<Param>, name: string): (k: nat)
    ensures k <= |ps|
    ensures k < |ps| ==> ps[k].name == name
    ensures forall j :: 0 <= j < k ==> ps[j].name != name
  {
    if ps == [] then 0
    else if ps[0].name == name then 0
    else 1 + FindParam(ps[1..], name)
  }

  /** `URLSearchParams.prototype.get`: the value of the first pair named `name`, or null. */
  function Get(ps: seq<Param>, name: string): Option<string> {
    var k := FindParam(ps, name);
    if k < |ps| then Some(ps[k].value) else None
  }

  predicate DistinctNames(ps: seq<Param>) {
    forall i, j :: 0 <= i < j < |ps| ==> ps[i].name != ps[j].name
  }

  /** With distinct names, `get` finds every pair's own value. */
  lemma GetDistinct(ps: seq<Param>, k: nat)
    requires DistinctNames(ps) && k < |ps|
    ensures Get(ps, ps[k].name) == Some(ps[k].value)
  {
    var n := FindParam(ps, ps[k].name);
    assert n == k;
  }

  /** One `name=value` piece, split at its first `=`; a piece without `=` has an empty value. */
  function PairOf(piece: string): Param {
    var eq := FindFirst(piece, 0, {'='});
    Param(piece[..eq], if eq < |piece| then piece[eq + 1..] else "")
  }

  /** The pairs of the non-empty pieces, in order. */
  function PairsOf(pieces: seq<string>): seq<Param> {
    if pieces == [] then []
    else (if pieces[0] == "" then [] else [PairOf(pieces[0])]) + PairsOf(pieces[1..])
  }

  /**
   * `new URLSearchParams(q)` for a query without its leading `?`: split on
   * `&`, drop empty pieces. Neither `+` nor percent escapes are decoded, so
   * this agrees with `URLSearchParams` only on queries without `+` and `%`.
   */
  function ParseQuery(q: string): seq<Param> {
    PairsOf(Split(q, '&'))
  }

  /** A query written out as `name=value` pairs joined by `&` (no percent-encoding). */
  function QueryString(ps: seq<Param>): string {
    Join(Pieces(ps), '&')
  }

  function Pieces(ps: seq<Param>): (r: seq<string>)
    ensures |r| == |ps|
    ensures forall k :: 0 <= k < |ps| ==> r[k] == ps[k].name + "=" + ps[k].value
  {
    if ps == [] then [] else [ps[0].name + "=" + ps[0].value] + Pieces(ps[1..])
  }

  /** Pairs whose text cannot be confused with the separators. */
  predicate PlainParams(ps: seq<Param>) {
    forall k :: 0 <= k < |ps| ==>
      '&' !in ps[k].name && '=' !in ps[k].name && '&' !in ps[k].value
  }

  /** A piece `name=value` splits back into its pair when the name holds no `=`. */
  lemma PairOfPiece(p: Param)
    requires '=' !in p.name
    ensures PairOf(p.name + "=" + p.value) == p
  {
    var s := p.name + "=" + p.value;
    assert forall j :: 0 <= j < |p.name| ==> s[j] == p.name[j];
    assert s[|p.name|] == '=';
    assert FindFirst(s, 0, {'='}) == |p.name|;
    assert s[..|p.name|] == p.name;
    assert s[|p.name| + 1..] == p.value;
  }

  /** Parsing the pieces of plain pairs gives the pairs. */
  lemma {:induction false} PairsOfPieces(ps: seq<Param>)
    requires PlainParams(ps)
    ensures PairsOf(Pieces(ps)) == ps
  {
    if ps != [] {
      var pieces := Pieces(ps);
      assert pieces[0] != "";
      PairOfPiece(ps[0]);
      assert pieces[1..] == Pieces(ps[1..]);
      PairsOfPieces(ps[1..]);
    }
  }

  /** Round trip: a query written from plain pairs parses back into the same pairs, in order. */
  lemma ParseQueryString(ps: seq<Param>)
    requires PlainParams(ps)
    ensures ParseQuery(QueryString(ps)) == ps
  {
    var pieces := Pieces(ps);
    if ps == [] {
      assert FindFirst("", 0, {'&'}) == 0;
      assert Split("", '&') == [""];
    } else {
      forall k | 0 <= k < |pieces| ensures '&' !in pieces[k] {
        assert pieces[k] == ps[k].name + "=" + ps[k].value;
      }
      SplitJoin(pieces, '&');
      PairsOfPieces(ps);
    }
  }

  // ---------------------------------------------------------------------------
  // new URL(s)
  // ---------------------------------------------------------------------------

  datatype UrlError = InvalidUrl

  /** The parts of a parsed URL the pages read; `search` is the query without its `?`. */
  datatype Url = Url(protocol: string, hostname: string, pathname: string, search: string)

  /**
   * `new URL(s)` without a base: `http:` and `https:` URLs; a string without
   * a scheme throws. The host is taken as written: no lower-casing, no IPv4
   * reading of a numeric last label, no check of `xn--` labels.
   */
  function ParseUrl(s: string): Result<Url, UrlError> {
    if StartsWithAt(s, 0, "https://") then ParseAfterScheme("https:", s[8..])
    else if StartsWithAt(s, 0, "http://") then ParseAfterScheme("http:", s[7..])
    else Err(InvalidUrl)
  }

  /** Host up to the first `/`, `?` or `#`; path up to `?` or `#` (`/` when empty); query up to `#`. */
  function ParseAfterScheme(protocol: string, rest: string): Result<Url, UrlError> {
    var h := FindFirst(rest, 0, {'/', '?', '#'});
    if h == 0 then Err(InvalidUrl)
    else
      var tail := rest[h..];
      var q := FindFirst(tail, 0, {'?', '#'});
      var f := FindFirst(tail, q, {'#'});
      Ok(Url(protocol, rest[..h],
             if q == 0 then "/" else tail[..q],
             if q < |tail| && tail[q] == '?' then tail[q + 1..f] else ""))
  }

  /** `URL.prototype.href` of a URL without a fragment. */
  function Href(u: Url): string {
    u.protocol + "//" + u.hostname + u.pathname + (if u.search == "" then "" else "?" + u.search)
  }

  /** Host characters the model takes as they are: lower-case letters, digits, `.` and `-`. */
  predicate IsHostChar(c: char) {
    ('a' <= c <= 'z') || ('0' <= c <= '9') || c == '.' || c == '-'
  }

  /** Path characters `new URL` neither encodes nor resolves: letters, digits, `/`, `_` and `-` (no `.`). */
  predicate IsPathChar(c: char) {
    ('a' <= c <= 'z') || ('A' <= c <= 'Z') || ('0' <= c <= '9') || c == '/' || c == '_' || c == '-'
  }

  /** Query characters `new URL` keeps as they are: letters, digits, `_`, `-`, `.`, `=` and `&`. */
  predicate IsQueryChar(c: char) {
    ('a' <= c <= 'z') || ('A' <= c <= 'Z') || ('0' <= c <= '9') || c == '_' || c == '-' || c == '.' || c == '=' || c == '&'
  }

  predicate ValidHost(s: string) {
    forall k :: 0 <= k < |s| ==> IsHostChar(s[k])
  }

  predicate ValidPath(s: string) {
    forall k :: 0 <= k < |s| ==> IsPathChar(s[k])
  }

  predicate ValidQuery(s: string) {
    forall k :: 0 <= k < |s| ==> IsQueryChar(s[k])
  }

  /** Host, path and query texts stay valid when put together. */
  lemma ValidConcat(a: string, b: string)
    ensures ValidHost(a) && ValidHost(b) ==> ValidHost(a + b)
    ensures ValidPath(a) && ValidPath(b) ==> ValidPath(a + b)
    ensures ValidQuery(a) && ValidQuery(b) ==> ValidQuery(a + b)
  {
    assert forall k :: |a| <= k < |a + b| ==> (a + b)[k] == b[k - |a|];
  }

  /**
   * The URLs whose written form the model's parser reads back unchanged: no
   * character of host, path or query is one `new URL` lower-cases,
   * percent-encodes, strips or takes as a separator, and the path has no dot
   * segment. `new URL` itself agrees on the four hosts scanned links carry
   * (`youtu.be` and `youtube.com`, with or without `www.`); a host such as
   * `1` (read as IPv4) or `xn--a` (rejected) is well formed here but not
   * kept by `new URL`.
   */
  predicate WellFormed(u: Url) {
    && (u.protocol == "https:" || u.protocol == "http:")
    && u.hostname != "" && ValidHost(u.hostname)
    && |u.pathname| > 0 && u.pathname[0] == '/' && ValidPath(u.pathname)
    && ValidQuery(u.search)
  }

  /** No separator occurs where a well-formed URL's parts do not allow it. */
  lemma WellFormedSeparators(u: Url)
    requires WellFormed(u)
    ensures forall k :: 0 <= k < |u.hostname| ==> u.hostname[k] !in {'/', '?', '#'}
    ensures forall k :: 0 <= k < |u.pathname| ==> u.pathname[k] !in {'?', '#'}
    ensures forall k :: 0 <= k < |u.search| ==> u.search[k] != '#'
  {
    forall k | 0 <= k < |u.hostname| ensures u.hostname[k] !in {'/', '?', '#'} {
      assert IsHostChar(u.hostname[k]);
    }
    forall k | 0 <= k < |u.pathname| ensures u.pathname[k] !in {'?', '#'} {
      assert IsPathChar(u.pathname[k]);
    }
    forall k | 0 <= k < |u.search| ensures u.search[k] != '#' {
      assert IsQueryChar(u.search[k]);
    }
  }

  /** The path and query after the host come apart at the `?`. */
  lemma ParseTail(u: Url)
    requires WellFormed(u)
    ensures var tail := u.pathname + (if u.search == "" then "" else "?" + u.search);
            var q := FindFirst(tail, 0, {'?', '#'});
            && q == |u.pathname|
            && tail[..q] == u.pathname
            && (if q < |tail| && tail[q] == '?' then tail[q + 1..FindFirst(tail, q, {'#'})] else "") == u.search
  {
    WellFormedSeparators(u);
    if u.search == "" {
      FindFirstAt(u.pathname + "", 0, {'?', '#'}, |u.pathname|);
    } else {
      ParseQueryTail(u.pathname, u.search);
    }
  }

  /** A path followed by `?` and a query without `#` splits at that `?`. */
  lemma ParseQueryTail(path: string, query: string)
    requires forall k :: 0 <= k < |path| ==> path[k] !in {'?', '#'}
    requires forall k :: 0 <= k < |query| ==> query[k] != '#'
    ensures var tail := path + ("?" + query);
            && FindFirst(tail, 0, {'?', '#'}) == |path|
            && tail[..|path|] == path
            && tail[|path|] == '?'
            && FindFirst(tail, |path|, {'#'}) == |tail|
            && tail[|path| + 1..] == query
  {
    var tail := path + ("?" + query);
    var n := |path|;
    assert forall j :: 0 <= j < n ==> tail[j] == path[j];
    assert tail[n] == '?';
    FindFirstAt(tail, 0, {'?', '#'}, n);
    assert forall j :: n < j < |tail| ==> tail[j] == query[j - n - 1];
    FindFirstAt(tail, n, {'#'}, |tail|);
    assert tail[..n] == path;
    assert tail[n + 1..] == query;
  }

  /** Written out, a well-formed URL is its scheme text followed by host, path and query. */
  lemma HrefScheme(u: Url)
    requires WellFormed(u)
    ensures ParseUrl(Href(u)) ==
            ParseAfterScheme(u.protocol, u.hostname + u.pathname + (if u.search == "" then "" else "?" + u.search))
  {
    var rest := u.hostname + u.pathname + (if u.search == "" then "" else "?" + u.search);
    var s := Href(u);
    assert s == u.protocol + "//" + rest;
    if u.protocol == "https:" {
      assert s[..8] == "https://";
      assert s[8..] == rest;
    } else {
      assert s[..7] == "http://";
      assert s[7..] == rest;
      assert s[4] == ':';
      assert !StartsWithAt(s, 0, "https://") by {
        assert s[..8][4] == s[4];
      }
    }
  }

  /** The host ends at the path's leading `/`; path and query follow. */
  lemma HostSplit(u: Url)
    requires WellFormed(u)
    ensures ParseAfterScheme(u.protocol, u.hostname + u.pathname + (if u.search == "" then "" else "?" + u.search)) == Ok(u)
  {
    WellFormedSeparators(u);
    var tail := u.pathname + (if u.search == "" then "" else "?" + u.search);
    var rest := u.hostname + tail;
    assert rest == u.hostname + u.pathname + (if u.search == "" then "" else "?" + u.search);
    var m := |u.hostname|;
    assert forall j :: 0 <= j < m ==> rest[j] == u.hostname[j];
    assert rest[m] == '/';
    assert FindFirst(rest, 0, {'/', '?', '#'}) == m;
    assert rest[..m] == u.hostname;
    assert rest[m..] == tail;
    ParseTail(u);
  }

  /** Round trip: a well-formed URL, written out, parses back into itself. */
  lemma ParseHref(u: Url)
    requires WellFormed(u)
    ensures ParseUrl(Href(u)) == Ok(u)
  {
    HrefScheme(u);
    HostSplit(u);
  }
}
