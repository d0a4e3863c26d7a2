/**
 * What one press of "update playlist" does, as a function of its inputs and
 * the server's answers: the requests it sends, in order, and how it ends.
 * The component's method is proved against `ReplaceRun`.
 */
module ReplaceSpec {
  import opened Common
  import opened WebUrl
  import opened LinkScan
  import opened VideoId
  import opened PlaylistApi

  /** The message the page shows in its error slot. */
  datatype Notice =
    | NoNotice
    | SignInRequired
    | ChoosePlaylist
    | NoLinksExtracted
    | TokenMissing
    | Deleting
    | Adding
    | Progress(completed: nat, total: nat)
    | AuthExpired
    | UpdateFailed
    | PlaylistsLoadFailed

  /** The four checks made before any request, in the order they are made. */
  datatype Guard = NotSignedIn | NoPlaylist | NoLinks | NoToken

  /** How a run ends. */
  datatype Outcome =
    | Stopped(guard: Guard)
    | Failed
    | Expired(completed: nat, total: nat)
    | Done(completed: nat, total: nat)

  datatype Run = Run(calls: seq<Call>, outcome: Outcome)

  /** The message the error slot holds when a run has ended. */
  function FinalNotice(o: Outcome): Notice {
    match o
    case Stopped(NotSignedIn) => SignInRequired
    case Stopped(NoPlaylist) => ChoosePlaylist
    case Stopped(NoLinks) => NoLinksExtracted
    case Stopped(NoToken) => TokenMissing
    case Failed => UpdateFailed
    case Expired(_, _) => AuthExpired
    case Done(_, _) => NoNotice
  }

  /** All four checks pass. */
  predicate Proceeds(authStatus: bool, playlistId: string, links: seq<string>, token: Option<string>) {
    authStatus && playlistId != "" && links != [] && Truthy(token)
  }

  // ---------------------------------------------------------------------------
  // Deletion phase
  // ---------------------------------------------------------------------------

  /**
   * The server's page chain from token `t` ends (on a failure or on a page
   * without a next token) within `n` pages.
   */
  predicate PagesEndWithin(pages: map<(string, string), ListAnswer>, playlistId: string, t: string, n: nat)
    decreases n
  {
    n > 0 &&
    match PageAt(pages, playlistId, t)
    case ListFailed => true
    case Page(_, next) => NextToken(next) == "" || PagesEndWithin(pages, playlistId, NextToken(next), n - 1)
  }

  function Deletes(ids: seq<string>): (calls: seq<Call>)
    ensures |calls| == |ids|
    ensures forall k :: 0 <= k < |ids| ==> calls[k] == DeleteItem(ids[k])
  {
    if ids == [] then [] else [DeleteItem(ids[0])] + Deletes(ids[1..])
  }

  datatype Phase = Phase(calls: seq<Call>, ok: bool)

  /**
   * The do-while loop from page token `t`: list a page, delete each of its
   * items, and go on while the next token is non-empty; a failed listing
   * ends the phase unsuccessfully.
   */
  function DeletionFrom(pages: map<(string, string), ListAnswer>, playlistId: string, t: string, n: nat): (d: Phase)
    requires PagesEndWithin(pages, playlistId, t, n)
    ensures |d.calls| >= 1 && d.calls[0] == ListItems(playlistId, t)
    decreases n
  {
    var listed := [ListItems(playlistId, t)];
    match PageAt(pages, playlistId, t)
    case ListFailed => Phase(listed, false)
    case Page(ids, next) =>
      var here := listed + Deletes(ids);
      if NextToken(next) == "" then Phase(here, true)
      else
        var rest := DeletionFrom(pages, playlistId, NextToken(next), n - 1);
        Phase(here + rest.calls, rest.ok)
  }

  /** A failed listing ends the deletion phase unsuccessfully. */
  lemma DeletionStops(pages: map<(string, string), ListAnswer>, playlistId: string, t: string, n: nat)
    requires PagesEndWithin(pages, playlistId, t, n) && PageAt(pages, playlistId, t).ListFailed?
    ensures DeletionFrom(pages, playlistId, t, n) == Phase([ListItems(playlistId, t)], false)
  {
  }

  /** A listed page is deleted and its next token, if any, followed. */
  lemma DeletionContinues(pages: map<(string, string), ListAnswer>, playlistId: string, t: string, n: nat)
    requires PagesEndWithin(pages, playlistId, t, n) && PageAt(pages, playlistId, t).Page?
    ensures var page := PageAt(pages, playlistId, t);
            var next := NextToken(page.nextPageToken);
            var here := [ListItems(playlistId, t)] + Deletes(page.itemIds);
            var d := DeletionFrom(pages, playlistId, t, n);
            && (next == "" ==> d == Phase(here, true))
            && (next != "" ==> && n > 1 && PagesEndWithin(pages, playlistId, next, n - 1)
                               && d.calls == here + DeletionFrom(pages, playlistId, next, n - 1).calls
                               && d.ok == DeletionFrom(pages, playlistId, next, n - 1).ok)
  {
  }

  /** The tokens the server's pages lead through from `t`, starting with `t`. */
  function TokenChain(pages: map<(string, string), ListAnswer>, playlistId: string, t: string, n: nat): (chain: seq<string>)
    requires PagesEndWithin(pages, playlistId, t, n)
    ensures |chain| >= 1 && chain[0] == t
    decreases n
  {
    match PageAt(pages, playlistId, t)
    case ListFailed => [t]
    case Page(_, next) =>
      if NextToken(next) == "" then [t]
      else [t] + TokenChain(pages, playlistId, NextToken(next), n - 1)
  }

  /** Each token of `chain` but the last names a page whose non-empty next token is the following one. */
  predicate Linked(pages: map<(string, string), ListAnswer>, playlistId: string, chain: seq<string>) {
    forall k {:trigger chain[k]} :: 0 <= k < |chain| - 1 ==>
      PageAt(pages, playlistId, chain[k]).Page? &&
      NextToken(PageAt(pages, playlistId, chain[k]).nextPageToken) == chain[k + 1] != ""
  }

  /**
   * The chain is the do-while's walk: each next token is the previous page's
   * non-empty `nextPageToken`, and the last token names a failed listing or
   * a page with no next token.
   */
  lemma {:induction false} TokenChainLinks(pages: map<(string, string), ListAnswer>, playlistId: string, t: string, n: nat)
    requires PagesEndWithin(pages, playlistId, t, n)
    ensures var chain := TokenChain(pages, playlistId, t, n);
            && Linked(pages, playlistId, chain)
            && var last := PageAt(pages, playlistId, chain[|chain| - 1]);
               last.ListFailed? || NextToken(last.nextPageToken) == ""
    decreases n
  {
    var chain := TokenChain(pages, playlistId, t, n);
    var page := PageAt(pages, playlistId, t);
    if page.Page? && NextToken(page.nextPageToken) != "" {
      var t' := NextToken(page.nextPageToken);
      var rest := TokenChain(pages, playlistId, t', n - 1);
      assert chain == [t] + rest;
      TokenChainLinks(pages, playlistId, t', n - 1);
      forall k {:trigger chain[k]} | 0 <= k < |chain| - 1
        ensures PageAt(pages, playlistId, chain[k]).Page?
        ensures NextToken(PageAt(pages, playlistId, chain[k]).nextPageToken) == chain[k + 1] != ""
      {
        if k > 0 {
          assert chain[k] == rest[k - 1] && chain[k + 1] == rest[k];
        }
      }
      assert Linked(pages, playlistId, chain);
      assert chain[|chain| - 1] == rest[|rest| - 1];
    }
  }

  /** The item IDs on the pages of a chain, in order. */
  function ItemsOn(pages: map<(string, string), ListAnswer>, playlistId: string, chain: seq<string>): seq<string> {
    if chain == [] then []
    else
      var page := PageAt(pages, playlistId, chain[0]);
      (if page.Page? then page.itemIds else []) + ItemsOn(pages, playlistId, chain[1..])
  }

  /** The page tokens of the listing requests in `calls`. */
  function Listed(calls: seq<Call>): seq<string> {
    if calls == [] then []
    else (if calls[0].ListItems? then [calls[0].pageToken] else []) + Listed(calls[1..])
  }

  /** The item IDs of the delete requests in `calls`. */
  function Deleted(calls: seq<Call>): seq<string> {
    if calls == [] then []
    else (if calls[0].DeleteItem? then [calls[0].itemId] else []) + Deleted(calls[1..])
  }

  /** The video IDs of the insert requests in `calls`. */
  function InsertedIds(calls: seq<Call>): seq<string> {
    if calls == [] then []
    else (if calls[0].InsertVideo? then [calls[0].videoId] else []) + InsertedIds(calls[1..])
  }

  /** The three request filters distribute over concatenation. */
  lemma FiltersAppend(a: seq<Call>, b: seq<Call>)
    ensures Listed(a + b) == Listed(a) + Listed(b)
    ensures Deleted(a + b) == Deleted(a) + Deleted(b)
    ensures InsertedIds(a + b) == InsertedIds(a) + InsertedIds(b)
  {
    ListedAppend(a, b);
    DeletedAppend(a, b);
    InsertedIdsAppend(a, b);
  }

  lemma {:induction false} ListedAppend(a: seq<Call>, b: seq<Call>)
    ensures Listed(a + b) == Listed(a) + Listed(b)
  {
    if a == [] {
      assert a + b == b;
    } else {
      assert (a + b)[0] == a[0] && (a + b)[1..] == a[1..] + b;
      ListedAppend(a[1..], b);
    }
  }

  lemma {:induction false} DeletedAppend(a: seq<Call>, b: seq<Call>)
    ensures Deleted(a + b) == Deleted(a) + Deleted(b)
  {
    if a == [] {
      assert a + b == b;
    } else {
      assert (a + b)[0] == a[0] && (a + b)[1..] == a[1..] + b;
      DeletedAppend(a[1..], b);
    }
  }

  lemma {:induction false} InsertedIdsAppend(a: seq<Call>, b: seq<Call>)
    ensures InsertedIds(a + b) == InsertedIds(a) + InsertedIds(b)
  {
    if a == [] {
      assert a + b == b;
    } else {
      assert (a + b)[0] == a[0] && (a + b)[1..] == a[1..] + b;
      InsertedIdsAppend(a[1..], b);
    }
  }

  /** The delete requests of a page are the page's items and nothing else. */
  lemma {:induction false} FiltersOfDeletes(ids: seq<string>)
    ensures Listed(Deletes(ids)) == [] && InsertedIds(Deletes(ids)) == []
    ensures Deleted(Deletes(ids)) == ids
  {
    if ids != [] {
      var ds := Deletes(ids);
      assert ds[1..] == Deletes(ids[1..]);
      FiltersOfDeletes(ids[1..]);
    }
  }

  /** The items on a chain are the first page's items followed by those on the rest. */
  lemma ItemsOnCons(pages: map<(string, string), ListAnswer>, playlistId: string, t: string, rest: seq<string>)
    ensures var page := PageAt(pages, playlistId, t);
            ItemsOn(pages, playlistId, [t] + rest) == (if page.Page? then page.itemIds else []) + ItemsOn(pages, playlistId, rest)
  {
    assert ([t] + rest)[0] == t && ([t] + rest)[1..] == rest;
  }

  /** The requests of a single listing. */
  lemma FiltersOfListing(playlistId: string, t: string)
    ensures Listed([ListItems(playlistId, t)]) == [t]
    ensures Deleted([ListItems(playlistId, t)]) == [] && InsertedIds([ListItems(playlistId, t)]) == []
  {
    assert [ListItems(playlistId, t)][1..] == [];
  }

  /** The requests for one listed page: its listing and its deletes. */
  lemma FiltersOfPage(playlistId: string, t: string, ids: seq<string>)
    ensures var here := [ListItems(playlistId, t)] + Deletes(ids);
            Listed(here) == [t] && Deleted(here) == ids && InsertedIds(here) == []
  {
    FiltersOfListing(playlistId, t);
    FiltersOfDeletes(ids);
    FiltersAppend([ListItems(playlistId, t)], Deletes(ids));
  }

  /**
   * The deletion phase lists exactly the pages of the token chain, deletes
   * exactly the items on them, one request each and in order, inserts
   * nothing, and succeeds exactly when the last listing did.
   */
  lemma {:induction false} DeletionFollowsChain(pages: map<(string, string), ListAnswer>, playlistId: string, t: string, n: nat)
    requires PagesEndWithin(pages, playlistId, t, n)
    ensures var d := DeletionFrom(pages, playlistId, t, n);
            var chain := TokenChain(pages, playlistId, t, n);
            && Listed(d.calls) == chain
            && Deleted(d.calls) == ItemsOn(pages, playlistId, chain)
            && InsertedIds(d.calls) == []
            && (d.ok <==> PageAt(pages, playlistId, chain[|chain| - 1]).Page?)
    decreases n
  {
    match PageAt(pages, playlistId, t) {
      case ListFailed =>
        FiltersOfListing(playlistId, t);
        ItemsOnCons(pages, playlistId, t, []);
      case Page(ids, next) =>
        FiltersOfPage(playlistId, t, ids);
        var here := [ListItems(playlistId, t)] + Deletes(ids);
        if NextToken(next) == "" {
          ItemsOnCons(pages, playlistId, t, []);
        } else {
          var t' := NextToken(next);
          var rest := DeletionFrom(pages, playlistId, t', n - 1);
          var chain' := TokenChain(pages, playlistId, t', n - 1);
          DeletionFollowsChain(pages, playlistId, t', n - 1);
          FiltersAppend(here, rest.calls);
          ItemsOnCons(pages, playlistId, t, chain');
        }
    }
  }

  // ---------------------------------------------------------------------------
  // Insert phase
  // ---------------------------------------------------------------------------

  /** How far the insert loop got: requests made, successes counted, and whether a 401 stopped it. */
  datatype Insertion = Insertion(attempted: nat, completed: nat, expired: bool)

  /** The answers the next `k` inserts get, the first one being insert number `base`. */
  function Answers(answer: nat -> InsertAnswer, base: nat, k: nat): (r: seq<InsertAnswer>)
    ensures |r| == k
    ensures forall j :: 0 <= j < k ==> r[j] == answer(base + j)
  {
    seq(k, j requires 0 <= j < k => answer(base + j))
  }

  /**
   * The insert loop, one video per answer: a success counts, a 401 refusal
   * stops the loop, anything else is skipped.
   */
  function InsertionOf(answers: seq<InsertAnswer>): (r: Insertion)
    ensures r.completed <= r.attempted <= |answers|
    ensures r.expired ==> r.attempted > 0 && Is401(answers[r.attempted - 1])
    ensures !r.expired ==> r.attempted == |answers|
  {
    if answers == [] then Insertion(0, 0, false)
    else if Is401(answers[0]) then Insertion(1, 0, true)
    else
      var rest := InsertionOf(answers[1..]);
      Insertion(rest.attempted + 1, rest.completed + (if answers[0] == Inserted then 1 else 0), rest.expired)
  }

  /** How many of `answers` were successes. */
  function CountInserted(answers: seq<InsertAnswer>): nat {
    if answers == [] then 0
    else (if answers[0] == Inserted then 1 else 0) + CountInserted(answers[1..])
  }

  /**
   * `completed` is the number of successes among the answers the loop got,
   * and no answer before the last one it got was a 401.
   */
  lemma {:induction false} InsertionCounts(answers: seq<InsertAnswer>)
    ensures var r := InsertionOf(answers);
            && r.completed == CountInserted(answers[..r.attempted])
            && (forall j :: 0 <= j < r.attempted - 1 ==> !Is401(answers[j]))
            && (!r.expired ==> forall j :: 0 <= j < r.attempted ==> !Is401(answers[j]))
  {
    var r := InsertionOf(answers);
    if answers != [] {
      var taken := answers[..r.attempted];
      assert taken[0] == answers[0];
      if Is401(answers[0]) {
        assert taken[1..] == [];
      } else {
        var rest := InsertionOf(answers[1..]);
        InsertionCounts(answers[1..]);
        assert taken[1..] == answers[1..][..rest.attempted];
        assert forall j :: 1 <= j < |answers| ==> answers[j] == answers[1..][j - 1];
      }
    }
  }

  /** The insert requests for the first videos. */
  function Inserts(playlistId: string, ids: seq<string>): (calls: seq<Call>)
    ensures |calls| == |ids|
    ensures forall k :: 0 <= k < |ids| ==> calls[k] == InsertVideo(playlistId, ids[k])
  {
    if ids == [] then [] else [InsertVideo(playlistId, ids[0])] + Inserts(playlistId, ids[1..])
  }

  /** The insert requests are the videos in order and nothing else. */
  lemma {:induction false} FiltersOfInserts(playlistId: string, ids: seq<string>)
    ensures Listed(Inserts(playlistId, ids)) == [] && Deleted(Inserts(playlistId, ids)) == []
    ensures InsertedIds(Inserts(playlistId, ids)) == ids
  {
    if ids != [] {
      assert Inserts(playlistId, ids)[1..] == Inserts(playlistId, ids[1..]);
      FiltersOfInserts(playlistId, ids[1..]);
    }
  }

  // ---------------------------------------------------------------------------
  // The whole routine
  // ---------------------------------------------------------------------------

  /**
   * One run: the four checks in order, then the deletion phase from the
   * empty token, then the video IDs (a link `new URL` rejects fails the
   * run), then the insert loop. A run that gets past the checks always sends
   * at least one listing request, and the first request lists the first page.
   */
  function ReplaceRun(authStatus: bool, playlistId: string, links: seq<string>, token: Option<string>,
                      pages: map<(string, string), ListAnswer>, answer: nat -> InsertAnswer, base: nat, bound: nat): (r: Run)
    requires Proceeds(authStatus, playlistId, links, token) ==> PagesEndWithin(pages, playlistId, "", bound)
    ensures r.outcome == Stopped(NotSignedIn) <==> !authStatus
    ensures r.outcome == Stopped(NoPlaylist) <==> authStatus && playlistId == ""
    ensures r.outcome == Stopped(NoLinks) <==> authStatus && playlistId != "" && links == []
    ensures r.outcome == Stopped(NoToken) <==> authStatus && playlistId != "" && links != [] && !Truthy(token)
    ensures r.outcome.Stopped? <==> r.calls == []
    ensures r.calls != [] ==> r.calls[0] == ListItems(playlistId, "")
  {
    if !authStatus then Run([], Stopped(NotSignedIn))
    else if playlistId == "" then Run([], Stopped(NoPlaylist))
    else if links == [] then Run([], Stopped(NoLinks))
    else if !Truthy(token) then Run([], Stopped(NoToken))
    else
      var d := DeletionFrom(pages, playlistId, "", bound);
      if !d.ok then Run(d.calls, Failed)
      else match VideoIds(links)
        case Err(_) => Run(d.calls, Failed)
        case Ok(ids) =>
          var ins := InsertionOf(Answers(answer, base, |ids|));
          var calls := d.calls + Inserts(playlistId, ids[..ins.attempted]);
          if ins.expired then Run(calls, Expired(ins.completed, |ids|))
          else Run(calls, Done(ins.completed, |ids|))
  }

  /**
   * A failed listing ends the run with the generic failure before any insert;
   * a link without a scheme does too, but only after every deletion was sent.
   */
  lemma AbortsBeforeInserting(authStatus: bool, playlistId: string, links: seq<string>, token: Option<string>,
                              pages: map<(string, string), ListAnswer>, answer: nat -> InsertAnswer, base: nat, bound: nat)
    requires Proceeds(authStatus, playlistId, links, token) && PagesEndWithin(pages, playlistId, "", bound)
    requires !DeletionFrom(pages, playlistId, "", bound).ok || exists k :: 0 <= k < |links| && ParseUrl(links[k]).Err?
    ensures var r := ReplaceRun(authStatus, playlistId, links, token, pages, answer, base, bound);
            && r.outcome == Failed
            && r.calls == DeletionFrom(pages, playlistId, "", bound).calls
            && InsertedIds(r.calls) == []
  {
    DeletionFollowsChain(pages, playlistId, "", bound);
  }

  /**
   * A run past the checks and the deletion phase sends one insert for each
   * video it got to, in order, and nothing else after the deletions; it ends
   * with the count of successes, out of all the IDs, and it has inserted
   * every video unless a 401 stopped it.
   */
  lemma InsertPhase(authStatus: bool, playlistId: string, links: seq<string>, token: Option<string>,
                    pages: map<(string, string), ListAnswer>, answer: nat -> InsertAnswer, base: nat, bound: nat)
    requires Proceeds(authStatus, playlistId, links, token) && PagesEndWithin(pages, playlistId, "", bound)
    requires DeletionFrom(pages, playlistId, "", bound).ok && VideoIds(links).Ok?
    ensures var r := ReplaceRun(authStatus, playlistId, links, token, pages, answer, base, bound);
            var ids := VideoIds(links).value;
            var ins := InsertionOf(Answers(answer, base, |ids|));
            var chain := TokenChain(pages, playlistId, "", bound);
            && Listed(r.calls) == chain
            && Deleted(r.calls) == ItemsOn(pages, playlistId, chain)
            && r.calls == DeletionFrom(pages, playlistId, "", bound).calls + Inserts(playlistId, ids[..ins.attempted])
            && InsertedIds(r.calls) == ids[..ins.attempted]
            && r.outcome == (if ins.expired then Expired(ins.completed, |ids|) else Done(ins.completed, |ids|))
            && (r.outcome.Done? ==> InsertedIds(r.calls) == ids)
  {
    var d := DeletionFrom(pages, playlistId, "", bound);
    var ids := VideoIds(links).value;
    var ins := InsertionOf(Answers(answer, base, |ids|));
    DeletionFollowsChain(pages, playlistId, "", bound);
    FiltersOfInserts(playlistId, ids[..ins.attempted]);
    FiltersAppend(d.calls, Inserts(playlistId, ids[..ins.attempted]));
  }

  /**
   * When every scanned link carries a scheme, a run that finishes has
   * inserted exactly the IDs read off the links' text, in link order.
   */
  lemma DoneInsertsScannedIds(authStatus: bool, playlistId: string, links: seq<string>, token: Option<string>,
                              pages: map<(string, string), ListAnswer>, answer: nat -> InsertAnswer, base: nat, bound: nat,
                              fs: seq<LinkForm>)
    requires Proceeds(authStatus, playlistId, links, token) && PagesEndWithin(pages, playlistId, "", bound)
    requires DeletionFrom(pages, playlistId, "", bound).ok
    requires ScannedLinks(fs, links) && forall k :: 0 <= k < |fs| ==> fs[k].scheme != NoScheme
    ensures var r := ReplaceRun(authStatus, playlistId, links, token, pages, answer, base, bound);
            r.outcome.Done? ==> InsertedIds(r.calls) == ScannedIds(fs, links)
  {
    VideoIdsOfScanned(fs, links);
    InsertPhase(authStatus, playlistId, links, token, pages, answer, base, bound);
  }

  /** A link the scanner found without a scheme makes the derivation, and so the run, fail. */
  lemma SchemeLessLinkFails(links: seq<string>, k: nat, f: LinkForm)
    requires k < |links| && IsLinkOf(f, links[k]) && f.scheme == NoScheme
    ensures exists j :: 0 <= j < |links| && ParseUrl(links[j]).Err?
    ensures VideoIds(links).Err?
  {
    ScannedVideoId(f, links[k]);
  }
}
