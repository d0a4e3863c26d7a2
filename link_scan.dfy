/**
 * Link extraction of the extractor page: the global pattern
 *   optional `http://` or `https://`, optional `www.`,
 *   then `youtube.com/watch?v=` or `youtu.be/`, then a greedy run of `[a-zA-Z0-9_-]`,
 * applied to the pasted text with `String.prototype.match`, followed by
 * de-duplication through a `Set` that keeps first-seen order.
 */
module LinkScan {
  import opened Common
  import opened Text

  /** The character class `[a-zA-Z0-9_-]` of the ID group. */
  predicate IsIdChar(c: char) {
    ('a' <= c <= 'z') || ('A' <= c <= 'Z') || ('0' <= c <= '9') || c == '_' || c == '-'
  }

  predicate AllIdChars(s: string) {
    forall k :: 0 <= k < |s| ==> IsIdChar(s[k])
  }

  datatype Scheme = Https | Http | NoScheme
  /** `youtube.com/watch?v=` and `youtu.be/`. */
  datatype Host = Watch | Short
  /** Which alternative of each group a match took. */
  datatype LinkForm = LinkForm(scheme: Scheme, www: bool, host: Host)

  function SchemeText(s: Scheme): string {
    match s
    case Https => "https://"
    case Http => "http://"
    case NoScheme => ""
  }

  function WwwText(www: bool): string {
    if www then "www." else ""
  }

  function HostText(h: Host): string {
    match h
    case Watch => "youtube.com/watch?v="
    case Short => "youtu.be/"
  }

  /** Everything a match of form `f` holds before its ID run. */
  function Prefix(f: LinkForm): string {
    SchemeText(f.scheme) + WwwText(f.www) + HostText(f.host)
  }

  /** `s` is, in full, the prefix of form `f` followed by a non-empty ID run. */
  predicate IsLinkOf(f: LinkForm, s: string) {
    |Prefix(f)| < |s| && s[..|Prefix(f)|] == Prefix(f) && AllIdChars(s[|Prefix(f)|..])
  }

  /** `s` is a string the whole pattern matches. */
  ghost predicate IsLink(s: string) {
    exists f: LinkForm :: IsLinkOf(f, s)
  }

  // ---------------------------------------------------------------------------
  // The scanner: what the regex engine does at one start position.
  // ---------------------------------------------------------------------------

  /** The scheme alternative taken at `i`: `https://`, else `http://`, else none. */
  function SchemeAt(text: string, i: nat): (s: Scheme)
    requires i <= |text|
    ensures StartsWithAt(text, i, SchemeText(s))
  {
    if StartsWithAt(text, i, "https://") then Https
    else if StartsWithAt(text, i, "http://") then Http
    else NoScheme
  }

  /** The host alternative present at `i`, if any. */
  function HostAt(text: string, i: nat): (h: Option<Host>)
    ensures h.Some? ==> StartsWithAt(text, i, HostText(h.value))
  {
    if StartsWithAt(text, i, "youtube.com/watch?v=") then Some(Watch)
    else if StartsWithAt(text, i, "youtu.be/") then Some(Short)
    else None
  }

  /** Two pieces found one after the other make their concatenation. */
  lemma StartsWithConcat(text: string, i: nat, a: string, b: string)
    requires StartsWithAt(text, i, a) && StartsWithAt(text, i + |a|, b)
    ensures StartsWithAt(text, i, a + b)
  {
    assert text[i..i + |a| + |b|] == text[i..i + |a|] + text[i + |a|..i + |a| + |b|];
  }

  /** The form whose whole prefix the three groups find at `i`, if any. */
  function PrefixAt(text: string, i: nat): (f: Option<LinkForm>)
    requires i <= |text|
    ensures f.Some? ==> StartsWithAt(text, i, Prefix(f.value))
  {
    var s := SchemeAt(text, i);
    var j := i + |SchemeText(s)|;
    var w := StartsWithAt(text, j, "www.");
    var k := j + |WwwText(w)|;
    assert StartsWithAt(text, j, WwwText(w));
    match HostAt(text, k)
    case None => None
    case Some(h) =>
      PrefixParts(text, i, LinkForm(s, w, h));
      Some(LinkForm(s, w, h))
  }

  /** The three groups' texts one after the other at `i`. */
  predicate PiecesAt(text: string, i: nat, f: LinkForm) {
    var a, b := |SchemeText(f.scheme)|, |WwwText(f.www)|;
    StartsWithAt(text, i, SchemeText(f.scheme)) && StartsWithAt(text, i + a, WwwText(f.www))
    && StartsWithAt(text, i + a + b, HostText(f.host))
  }

  /** The three groups' texts found one after the other make the whole prefix. */
  lemma PrefixParts(text: string, i: nat, f: LinkForm)
    requires PiecesAt(text, i, f)
    ensures StartsWithAt(text, i, Prefix(f))
  {
    var a, b, c := SchemeText(f.scheme), WwwText(f.www), HostText(f.host);
    StartsWithConcat(text, i, a, b);
    StartsWithConcat(text, i, a + b, c);
  }

  /** The end of the maximal run of ID characters that starts at `i`. */
  function IdRunEnd(text: string, i: nat): (e: nat)
    requires i <= |text|
    ensures i <= e <= |text|
    ensures AllIdChars(text[i..e])
    ensures e == |text| || !IsIdChar(text[e])
    decreases |text| - i
  {
    if i < |text| && IsIdChar(text[i]) then IdRunEnd(text, i + 1) else i
  }

  datatype Match = Match(form: LinkForm, end: nat)

  /**
   * The match that starts exactly at `i`, if there is one: a whole link of
   * its form, whose ID run the next character does not continue.
   */
  function MatchAt(text: string, i: nat): (r: Option<Match>)
    requires i <= |text|
    ensures r.Some? ==> StartsWithAt(text, i, Prefix(r.value.form))
    ensures r.Some? ==> var start := i + |Prefix(r.value.form)|;
      start < r.value.end <= |text| && AllIdChars(text[start..r.value.end])
    ensures r.Some? ==> r.value.end == |text| || !IsIdChar(text[r.value.end])
    ensures r.Some? ==> IsLinkOf(r.value.form, text[i..r.value.end])
  {
    match PrefixAt(text, i)
    case None => None
    case Some(f) => MatchAfter(text, i, f)
  }

  /** With the prefix of `f` at `i`, the match needs a non-empty ID run after it and takes all of it. */
  function MatchAfter(text: string, i: nat, f: LinkForm): (r: Option<Match>)
    requires StartsWithAt(text, i, Prefix(f))
    ensures r.Some? ==> r.value.form == f
    ensures r.Some? ==> var start := i + |Prefix(f)|;
      start < r.value.end <= |text| && AllIdChars(text[start..r.value.end])
    ensures r.Some? ==> r.value.end == |text| || !IsIdChar(text[r.value.end])
    ensures r.Some? ==> IsLinkOf(r.value.form, text[i..r.value.end])
  {
    var start := i + |Prefix(f)|;
    var e := IdRunEnd(text, start);
    if e == start then None
    else
      LinkFromParts(text, i, f, e);
      Some(Match(f, e))
  }

  /** A prefix present at `i` followed by a non-empty ID run up to `e` is a link of that form. */
  lemma LinkFromParts(text: string, i: nat, f: LinkForm, e: nat)
    requires StartsWithAt(text, i, Prefix(f))
    requires i + |Prefix(f)| < e <= |text| && AllIdChars(text[i + |Prefix(f)|..e])
    ensures IsLinkOf(f, text[i..e])
  {
    var n := |Prefix(f)|;
    assert text[i..e][..n] == text[i..i + n];
    assert text[i..e][n..] == text[i + n..e];
  }

  /** Chars of a piece present at `i` are found at the matching positions of the text. */
  lemma CharAt(text: string, i: nat, p: string, n: nat)
    requires StartsWithAt(text, i, p) && n < |p|
    ensures text[i + n] == p[n]
  {
    assert text[i..i + |p|][n] == text[i + n];
  }

  /** A slice of a piece present at `i` is present at its own offset. */
  lemma PieceAt(text: string, i: nat, p: string, off: nat, q: string)
    requires StartsWithAt(text, i, p)
    requires off + |q| <= |p| && p[off..off + |q|] == q
    ensures StartsWithAt(text, i + off, q)
  {
    forall n | 0 <= n < |q| ensures text[i + off + n] == q[n] {
      CharAt(text, i, p, off + n);
      assert q[n] == p[off..off + |q|][n];
    }
    assert text[i + off..i + off + |q|] == q;
  }

  /** A piece whose `n`-th char differs from the text's is not present at `i`. */
  lemma Mismatch(text: string, i: nat, p: string, n: nat)
    requires n < |p| && i + n < |text| && text[i + n] != p[n]
    ensures !StartsWithAt(text, i, p)
  {
    if i + |p| <= |text| {
      assert text[i..i + |p|][n] == text[i + n];
    }
  }

  /** A prefix present at `i` is its three groups' texts, one after the other. */
  lemma PiecesOfPrefix(text: string, i: nat, f: LinkForm)
    requires StartsWithAt(text, i, Prefix(f))
    ensures PiecesAt(text, i, f)
  {
    var a, b, c := SchemeText(f.scheme), WwwText(f.www), HostText(f.host);
    ThreePieces(text, i, a, b, c);
  }

  /** Generic form of the split: `a + b + c` at `i` is `a`, then `b`, then `c`. */
  lemma ThreePieces(text: string, i: nat, a: string, b: string, c: string)
    requires StartsWithAt(text, i, a + b + c)
    ensures StartsWithAt(text, i, a) && StartsWithAt(text, i + |a|, b)
    ensures StartsWithAt(text, i + |a| + |b|, c)
  {
    var p := a + b + c;
    assert p[0..|a|] == a;
    assert p[|a|..|a| + |b|] == b;
    assert p[|a| + |b|..|a| + |b| + |c|] == c;
    PieceAt(text, i, p, 0, a);
    PieceAt(text, i, p, |a|, b);
    PieceAt(text, i, p, |a| + |b|, c);
  }

  /** The first char after the scheme: `w` of `www.` or `y` of either host. */
  lemma AfterSchemeChar(text: string, i: nat, f: LinkForm)
    requires PiecesAt(text, i, f)
    ensures var k := i + |SchemeText(f.scheme)|; k < |text| && text[k] == (if f.www then 'w' else 'y')
  {
    var k := i + |SchemeText(f.scheme)|;
    if f.www {
      CharAt(text, k, "www.", 0);
    } else if f.host == Watch {
      CharAt(text, k, "youtube.com/watch?v=", 0);
    } else {
      CharAt(text, k, "youtu.be/", 0);
    }
  }

  /** The scheme group can only take the alternative that the pieces at `i` begin with. */
  lemma SchemeAtOf(text: string, i: nat, f: LinkForm)
    requires PiecesAt(text, i, f)
    ensures SchemeAt(text, i) == f.scheme
  {
    match f.scheme {
      case Https =>
      case Http =>
        CharAt(text, i, "http://", 4);
        Mismatch(text, i, "https://", 4);
      case NoScheme =>
        AfterSchemeChar(text, i, f);
        Mismatch(text, i, "https://", 0);
        Mismatch(text, i, "http://", 0);
    }
  }

  /** Likewise for the `www.` group, after the scheme. */
  lemma WwwAtOf(text: string, i: nat, f: LinkForm)
    requires PiecesAt(text, i, f)
    ensures StartsWithAt(text, i + |SchemeText(f.scheme)|, "www.") == f.www
  {
    if !f.www {
      AfterSchemeChar(text, i, f);
      Mismatch(text, i + |SchemeText(f.scheme)|, "www.", 0);
    }
  }

  /** The host group takes the alternative whose text is present. */
  lemma HostAtText(text: string, k: nat, h: Host)
    requires StartsWithAt(text, k, HostText(h))
    ensures HostAt(text, k) == Some(h)
  {
    if h == Short {
      CharAt(text, k, "youtu.be/", 5);
      Mismatch(text, k, "youtube.com/watch?v=", 5);
    }
  }

  /** A full prefix at `i` is recognised as exactly its own form. */
  lemma PrefixAtOf(text: string, i: nat, f: LinkForm)
    requires StartsWithAt(text, i, Prefix(f))
    ensures PrefixAt(text, i) == Some(f)
  {
    PiecesOfPrefix(text, i, f);
    PrefixAtOfPieces(text, i, f);
  }

  /** The three groups' texts at `i` are recognised as exactly their form. */
  lemma PrefixAtOfPieces(text: string, i: nat, f: LinkForm)
    requires i <= |text| && PiecesAt(text, i, f)
    ensures PrefixAt(text, i) == Some(f)
  {
    SchemeAtOf(text, i, f);
    WwwAtOf(text, i, f);
    HostAtText(text, i + |SchemeText(f.scheme)| + |WwwText(f.www)|, f.host);
    PrefixAtOfGroups(text, i, f);
  }

  /** What each group takes at `i` decides the form `PrefixAt` gives. */
  lemma PrefixAtOfGroups(text: string, i: nat, f: LinkForm)
    requires i <= |text| && SchemeAt(text, i) == f.scheme
    requires StartsWithAt(text, i + |SchemeText(f.scheme)|, "www.") == f.www
    requires HostAt(text, i + |SchemeText(f.scheme)| + |WwwText(f.www)|) == Some(f.host)
    ensures PrefixAt(text, i) == Some(f)
  {
    // One case per form, so that each unfolding of `PrefixAt` meets known offsets.
    match f.scheme {
      case Https =>
        if f.www {
          assert PrefixAt(text, i) == match HostAt(text, i + 12) case None => None case Some(h) => Some(LinkForm(Https, true, h));
        } else {
          assert PrefixAt(text, i) == match HostAt(text, i + 8) case None => None case Some(h) => Some(LinkForm(Https, false, h));
        }
      case Http =>
        if f.www {
          assert PrefixAt(text, i) == match HostAt(text, i + 11) case None => None case Some(h) => Some(LinkForm(Http, true, h));
        } else {
          assert PrefixAt(text, i) == match HostAt(text, i + 7) case None => None case Some(h) => Some(LinkForm(Http, false, h));
        }
      case NoScheme =>
        if f.www {
          assert PrefixAt(text, i) == match HostAt(text, i + 4) case None => None case Some(h) => Some(LinkForm(NoScheme, true, h));
        } else {
          assert PrefixAt(text, i) == match HostAt(text, i) case None => None case Some(h) => Some(LinkForm(NoScheme, false, h));
        }
    }
  }

  /**
   * Whatever the pattern can match at `i`, the scanner finds there: with the
   * same form (so the alternatives the regex would try first cannot succeed)
   * and an ID run at least as long (the `+` is greedy).
   */
  lemma MatchAtComplete(text: string, i: nat, f: LinkForm, j: nat)
    requires i <= j <= |text| && IsLinkOf(f, text[i..j])
    ensures MatchAt(text, i).Some?
    ensures MatchAt(text, i).value.form == f && j <= MatchAt(text, i).value.end
  {
    LinkParts(text, i, f, j);
    MatchAtOfParts(text, i, f, j);
  }

  /** With the prefix of `f` at `i` and ID characters up to `j`, the match is there. */
  lemma MatchAtOfParts(text: string, i: nat, f: LinkForm, j: nat)
    requires j <= |text| && StartsWithAt(text, i, Prefix(f))
    requires i + |Prefix(f)| < j && AllIdChars(text[i + |Prefix(f)|..j])
    ensures MatchAt(text, i).Some?
    ensures MatchAt(text, i).value.form == f && j <= MatchAt(text, i).value.end
  {
    PrefixAtOf(text, i, f);
    MatchAtOfPrefix(text, i, f, j);
  }

  /** With the prefix of `f` recognised at `i` and ID characters up to `j`, the match is there. */
  lemma MatchAtOfPrefix(text: string, i: nat, f: LinkForm, j: nat)
    requires i <= |text| && PrefixAt(text, i) == Some(f)
    requires i + |Prefix(f)| < j <= |text| && AllIdChars(text[i + |Prefix(f)|..j])
    ensures MatchAt(text, i).Some?
    ensures MatchAt(text, i).value.form == f && j <= MatchAt(text, i).value.end
  {
    MatchAfterRun(text, i, f, j);
    assert MatchAt(text, i) == MatchAfter(text, i, f);
  }

  /** After the prefix of `f`, ID characters up to `j` give a match reaching at least `j`. */
  lemma MatchAfterRun(text: string, i: nat, f: LinkForm, j: nat)
    requires StartsWithAt(text, i, Prefix(f))
    requires i + |Prefix(f)| < j <= |text| && AllIdChars(text[i + |Prefix(f)|..j])
    ensures MatchAfter(text, i, f).Some? && j <= MatchAfter(text, i, f).value.end
  {
    IdRunCovers(text, i + |Prefix(f)|, j);
  }

  /** A link of form `f` in `text[i..j]` is its prefix at `i` and ID characters up to `j`. */
  lemma LinkParts(text: string, i: nat, f: LinkForm, j: nat)
    requires i <= j <= |text| && IsLinkOf(f, text[i..j])
    ensures StartsWithAt(text, i, Prefix(f))
    ensures i + |Prefix(f)| < j && AllIdChars(text[i + |Prefix(f)|..j])
  {
    var n := |Prefix(f)|;
    assert text[i..j][..n] == text[i..i + n];
    assert text[i..j][n..] == text[i + n..j];
  }

  /** The maximal ID run reaches at least as far as any run of ID characters. */
  lemma IdRunCovers(text: string, start: nat, j: nat)
    requires start <= j <= |text| && AllIdChars(text[start..j])
    ensures j <= IdRunEnd(text, start)
  {
    var e := IdRunEnd(text, start);
    assert forall n :: start <= n < j ==> text[start..j][n - start] == text[n];
  }

  // ---------------------------------------------------------------------------
  // The global match: scan from the left, resume after each match.
  // ---------------------------------------------------------------------------

  /** The matched texts (whole matches, not the capture group) from position `i` on. */
  function MatchesFrom(text: string, i: nat): seq<string>
    requires i <= |text|
    decreases |text| - i
  {
    if i == |text| then []
    else match MatchAt(text, i)
      case Some(m) =>
        [text[i..m.end]] + MatchesFrom(text, m.end)
      case None => MatchesFrom(text, i + 1)
  }

  /** `text.match(urlRegex) || []`. */
  function Matches(text: string): seq<string> {
    MatchesFrom(text, 0)
  }

  /** Every match is a whole link: a known prefix and nothing but ID characters after it. */
  lemma {:induction false} MatchesAreLinks(text: string, i: nat)
    requires i <= |text|
    ensures forall x :: x in MatchesFrom(text, i) ==> IsLink(x)
    decreases |text| - i
  {
    if i < |text| {
      match MatchAt(text, i)
      case Some(m) =>
        MatchesAreLinks(text, m.end);
      case None =>
        MatchesAreLinks(text, i + 1);
    }
  }

  /** No start position at or after `i` has a match. */
  predicate NoMatchFrom(text: string, i: nat)
    requires i <= |text|
    decreases |text| - i
  {
    i == |text| || (MatchAt(text, i).None? && NoMatchFrom(text, i + 1))
  }

  /** The scan is empty exactly when no start position at or after `i` matches. */
  lemma {:induction false} MatchesEmptyIff(text: string, i: nat)
    requires i <= |text|
    ensures MatchesFrom(text, i) == [] <==> NoMatchFrom(text, i)
    decreases |text| - i
  {
    if i < |text| && MatchAt(text, i).None? {
      MatchesEmptyIff(text, i + 1);
    }
  }

  /** A position past `i` with a match rules out `NoMatchFrom(text, i)`. */
  lemma {:induction false} MatchBlocksNoMatch(text: string, i: nat, k: nat)
    requires i <= k < |text| && MatchAt(text, k).Some?
    ensures !NoMatchFrom(text, i)
    decreases k - i
  {
    if i < k {
      MatchBlocksNoMatch(text, i + 1, k);
    }
  }

  /** Some position at or after `i` has a match when `NoMatchFrom` fails. */
  lemma {:induction false} MatchWitness(text: string, i: nat) returns (k: nat)
    requires i <= |text| && !NoMatchFrom(text, i)
    ensures i <= k < |text| && MatchAt(text, k).Some?
    decreases |text| - i
  {
    if MatchAt(text, i).Some? {
      k := i;
    } else {
      k := MatchWitness(text, i + 1);
    }
  }

  /** Text holding no substring the pattern matches yields no links, and the converse. */
  lemma NoLinkNoMatches(text: string)
    ensures Matches(text) == [] <==>
            forall k, j :: 0 <= k <= j <= |text| ==> !IsLink(text[k..j])
  {
    MatchesEmptyIff(text, 0);
    if Matches(text) == [] {
      forall k, j | 0 <= k <= j <= |text| ensures !IsLink(text[k..j]) {
        if IsLink(text[k..j]) {
          var f :| IsLinkOf(f, text[k..j]);
          MatchAtComplete(text, k, f, j);
          MatchBlocksNoMatch(text, 0, k);
        }
      }
    } else {
      var k := MatchWitness(text, 0);
      var m := MatchAt(text, k).value;
      assert IsLink(text[k..m.end]);
    }
  }

  /** A link never holds `&`: neither a prefix nor an ID character is one. */
  lemma LinkHasNoAmpersand(f: LinkForm, s: string)
    requires IsLinkOf(f, s)
    ensures '&' !in s
  {
    var n := |Prefix(f)|;
    assert '&' !in Prefix(f);
    assert forall k :: n <= k < |s| ==> s[k] == s[n..][k - n];
    assert forall k :: 0 <= k < n ==> s[k] == s[..n][k];
  }

  // ---------------------------------------------------------------------------
  // De-duplication: `[...new Set(matches)]`.
  // ---------------------------------------------------------------------------

  /** Insertion into a `Set` in order, then spreading it: first occurrences, in first-seen order. */
  function Dedup(xs: seq<string>): (r: seq<string>)
    ensures NoDuplicates(r)
    ensures forall x :: x in r <==> x in xs
    ensures |r| <= |xs|
    decreases |xs|
  {
    if xs == [] then []
    else
      var d := Dedup(xs[..|xs| - 1]);
      var x := xs[|xs| - 1];
      assert xs == xs[..|xs| - 1] + [x];
      if x in d then d else d + [x]
  }

  /** The de-duplicated list keeps the order of first occurrences. */
  lemma {:induction false} DedupFirstSeenOrder(xs: seq<string>)
    ensures forall i, j :: 0 <= i < j < |Dedup(xs)| ==>
              FirstIndex(xs, Dedup(xs)[i]) < FirstIndex(xs, Dedup(xs)[j])
    decreases |xs|
  {
    if xs != [] {
      var p := xs[..|xs| - 1];
      var x := xs[|xs| - 1];
      var d := Dedup(p);
      DedupFirstSeenOrder(p);
      forall y | y in p ensures FirstIndex(xs, y) == FirstIndex(p, y) {
        FirstIndexOfPrefix(xs, y);
      }
      if x !in d {
        assert x !in p;
        assert FirstIndex(xs, x) == |xs| - 1;
        assert Dedup(xs) == d + [x];
      } else {
        assert Dedup(xs) == d;
      }
    }
  }

  /** An element of all but the last element is first found at the same place in both. */
  lemma FirstIndexOfPrefix(xs: seq<string>, y: string)
    requires |xs| > 0 && y in xs[..|xs| - 1]
    ensures FirstIndex(xs, y) == FirstIndex(xs[..|xs| - 1], y)
  {
    var p := xs[..|xs| - 1];
    var k := FirstIndex(p, y);
    assert xs[k] == y;
    assert forall n :: 0 <= n < k ==> p[n] == xs[n];
  }

  /** Input without repeats comes back unchanged, so de-duplicating a de-duplicated list changes nothing. */
  lemma {:induction false} DedupOfDistinct(xs: seq<string>)
    requires NoDuplicates(xs)
    ensures Dedup(xs) == xs
    decreases |xs|
  {
    if xs != [] {
      var p := xs[..|xs| - 1];
      DedupOfDistinct(p);
      assert xs[|xs| - 1] !in p;
      assert xs == p + [xs[|xs| - 1]];
    }
  }

  /** The links the extract button stores: distinct whole matches in first-seen order. */
  function ExtractLinks(text: string): seq<string> {
    Dedup(Matches(text))
  }

  /** Everything `ExtractLinks` promises, in one place. */
  lemma ExtractLinksSpec(text: string)
    ensures NoDuplicates(ExtractLinks(text))
    ensures forall x :: x in ExtractLinks(text) <==> x in Matches(text)
    ensures forall x :: x in ExtractLinks(text) ==> IsLink(x)
    ensures forall i, j :: 0 <= i < j < |ExtractLinks(text)| ==>
              FirstIndex(Matches(text), ExtractLinks(text)[i]) < FirstIndex(Matches(text), ExtractLinks(text)[j])
    ensures Dedup(ExtractLinks(text)) == ExtractLinks(text)
    ensures forall x :: x in ExtractLinks(text) ==> '&' !in x
  {
    MatchesAreLinks(text, 0);
    forall x | x in ExtractLinks(text) ensures '&' !in x {
      var f :| IsLinkOf(f, x);
      LinkHasNoAmpersand(f, x);
    }
    DedupFirstSeenOrder(Matches(text));
    DedupOfDistinct(ExtractLinks(text));
  }
}
