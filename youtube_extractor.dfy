/**
 * The extractor page's state and handlers: extracting links from the pasted
 * message, loading the user's playlists, and replacing a playlist's contents
 * with the extracted videos.
 */
module YouTubeExtractorPage {
  import opened Common
  import LinkScan
  import opened VideoId
  import opened PlaylistApi
  import opened ReplaceSpec
  import opened Storage
  import opened YouTubeAuth

  /** The toasts the page shows: videos added, and the list refreshed. */
  datatype Toast = VideosAdded(count: nat) | ListRefreshed

  /** The state `fetchPlaylists` leaves behind. */
  datatype Listing = Listing(playlists: seq<Playlist>, error: Notice)

  /**
   * `fetchPlaylists` after the sign-in check: a missing token is reported
   * without a request; otherwise the answer replaces the list or reports the
   * failure, and nothing else changes.
   */
  function AfterFetch(token: Option<string>, answer: PlaylistsAnswer, before: Listing): (after: Listing)
    ensures !Truthy(token) ==> after == Listing(before.playlists, TokenMissing)
    ensures Truthy(token) && answer.PlaylistsOk? ==> after == Listing(answer.items, before.error)
    ensures Truthy(token) && answer.PlaylistsFailed? ==> after == Listing(before.playlists, PlaylistsLoadFailed)
  {
    if !Truthy(token) then Listing(before.playlists, TokenMissing)
    else match answer
      case PlaylistsOk(items) => Listing(items, before.error)
      case PlaylistsFailed => Listing(before.playlists, PlaylistsLoadFailed)
  }

  /**
   * The requests `done` already sent, followed by the deletion phase from
   * token `t`, make up the whole phase `whole`.
   */
  ghost predicate Resumes(pages: map<(string, string), ListAnswer>, playlistId: string, t: string, n: nat,
                          done: seq<Call>, whole: Phase)
  {
    PagesEndWithin(pages, playlistId, t, n) &&
    done + DeletionFrom(pages, playlistId, t, n).calls == whole.calls &&
    DeletionFrom(pages, playlistId, t, n).ok == whole.ok
  }

  /**
   * One turn of the loop keeps `Resumes`, or, on the last turn, completes
   * the whole phase.
   */
  lemma ResumeStep(pages: map<(string, string), ListAnswer>, playlistId: string, t: string, n: nat,
                   done: seq<Call>, whole: Phase, ok: bool, next: string, here: seq<Call>)
    requires Resumes(pages, playlistId, t, n, done, whole)
    requires var d := DeletionFrom(pages, playlistId, t, n);
             if ok && next != "" then
               && n > 1 && PagesEndWithin(pages, playlistId, next, n - 1)
               && d.calls == here + DeletionFrom(pages, playlistId, next, n - 1).calls
               && d.ok == DeletionFrom(pages, playlistId, next, n - 1).ok
             else here == d.calls && ok == d.ok
    ensures ok && next != "" ==> Resumes(pages, playlistId, next, n - 1, done + here, whole)
    ensures !(ok && next != "") ==> done + here == whole.calls && ok == whole.ok
  {
    if ok && next != "" {
      AppendAssoc(done, here, DeletionFrom(pages, playlistId, next, n - 1).calls);
    }
  }

  /**
   * The do-while loop of `handleUpdatePlaylist`: lists pages from the
   * empty token and deletes every listed item, following the page tokens;
   * answers whether every listing succeeded.
   */
  method DeleteAll(api: YouTubeApi, playlistId: string, ghost bound: nat) returns (ok: bool)
    requires PagesEndWithin(api.pages, playlistId, "", bound)
    modifies api
    ensures api.log == old(api.log) + DeletionFrom(api.pages, playlistId, "", bound).calls
    ensures ok == DeletionFrom(api.pages, playlistId, "", bound).ok
    ensures api.inserts == old(api.inserts)
  {
    ghost var whole := DeletionFrom(api.pages, playlistId, "", bound);
    ghost var log0 := api.log;
    ghost var fuel := bound;
    ghost var done: seq<Call> := [];
    var pageToken := "";
    var more := true;
    ok := true;
    while more
      invariant more ==> Resumes(api.pages, playlistId, pageToken, fuel, done, whole)
      invariant !more ==> done == whole.calls && ok == whole.ok
      invariant api.log == log0 + done
      invariant api.inserts == old(api.inserts)
      decreases fuel + (if more then 1 else 0)
    {
      ghost var here;
      ghost var token := pageToken;
      ok, pageToken, here := DeletePage(api, playlistId, pageToken, fuel);
      ResumeStep(api.pages, playlistId, token, fuel, done, whole, ok, pageToken, here);
      AppendAssoc(log0, done, here);
      more := ok && pageToken != "";
      done := done + here;
      fuel := fuel - 1;
    }
  }

  /**
   * One turn of the do-while loop: list the page for `token`, delete its
   * items, and answer whether the listing succeeded and the next token.
   */
  method DeletePage(api: YouTubeApi, playlistId: string, token: string, ghost n: nat)
    returns (ok: bool, next: string, ghost here: seq<Call>)
    requires PagesEndWithin(api.pages, playlistId, token, n)
    modifies api
    ensures api.log == old(api.log) + here && api.inserts == old(api.inserts)
    ensures var d := DeletionFrom(api.pages, playlistId, token, n);
            if ok && next != "" then
              && n > 1 && PagesEndWithin(api.pages, playlistId, next, n - 1)
              && d.calls == here + DeletionFrom(api.pages, playlistId, next, n - 1).calls
              && d.ok == DeletionFrom(api.pages, playlistId, next, n - 1).ok
            else here == d.calls && ok == d.ok
  {
    var answer := api.ListItems(playlistId, token);
    if answer.ListFailed? {
      DeletionStops(api.pages, playlistId, token, n);
      ok, next, here := false, "", [ListItems(playlistId, token)];
    } else {
      DeletionContinues(api.pages, playlistId, token, n);
      DeleteItems(api, answer.itemIds);
      ok, next := true, NextToken(answer.nextPageToken);
      here := [ListItems(playlistId, token)] + Deletes(answer.itemIds);
    }
  }

  /** The inner `for` loop: one delete per listed item, answers ignored. */
  method DeleteItems(api: YouTubeApi, ids: seq<string>)
    modifies api
    ensures api.log == old(api.log) + Deletes(ids)
    ensures api.inserts == old(api.inserts)
  {
    var i := 0;
    while i < |ids|
      invariant 0 <= i <= |ids|
      invariant api.log == old(api.log) + Deletes(ids[..i])
      invariant api.inserts == old(api.inserts)
    {
      api.DeleteItem(ids[i]);
      DeletesSnoc(old(api.log), ids, i);
      i := i + 1;
    }
    assert ids[..i] == ids;
  }

  /**
   * After `i` answers, of which `completed` were successes, and no 401, the
   * loop's result is what the remaining answers add to that.
   */
  ghost predicate Resumed(answers: seq<InsertAnswer>, i: nat, completed: nat) {
    i <= |answers| &&
    var rest := InsertionOf(answers[i..]);
    InsertionOf(answers) == Insertion(i + rest.attempted, completed + rest.completed, rest.expired)
  }

  /** One more answer either ends the loop on a 401 or keeps `Resumed`. */
  lemma InsertionAdvance(answers: seq<InsertAnswer>, i: nat, completed: nat)
    requires i < |answers| && Resumed(answers, i, completed)
    ensures Is401(answers[i]) ==> InsertionOf(answers) == Insertion(i + 1, completed, true)
    ensures !Is401(answers[i]) ==>
              Resumed(answers, i + 1, completed + if answers[i] == Inserted then 1 else 0)
  {
    assert answers[i..][0] == answers[i];
    assert answers[i..][1..] == answers[i + 1..];
  }

  /** With every answer used and no 401, the loop's result is complete. */
  lemma InsertionDone(answers: seq<InsertAnswer>, completed: nat)
    requires Resumed(answers, |answers|, completed)
    ensures InsertionOf(answers) == Insertion(|answers|, completed, false)
  {
    assert answers[|answers|..] == [];
  }

  /** The log after the insert request for one more video. */
  lemma InsertsSnoc(log0: seq<Call>, playlistId: string, ids: seq<string>, i: nat)
    requires i < |ids|
    ensures log0 + Inserts(playlistId, ids[..i + 1]) == (log0 + Inserts(playlistId, ids[..i])) + [InsertVideo(playlistId, ids[i])]
  {
    var longer := Inserts(playlistId, ids[..i + 1]);
    var shorter := Inserts(playlistId, ids[..i]);
    assert forall k :: 0 <= k < i ==> longer[k] == shorter[k];
    assert longer == shorter + [InsertVideo(playlistId, ids[i])];
  }

  lemma AppendAssoc<T>(a: seq<T>, b: seq<T>, c: seq<T>)
    ensures (a + b) + c == a + (b + c)
  {
  }

  /** One turn of the insert loop: the insert request for the `i`-th video and the answer it gets. */
  method InsertAt(api: YouTubeApi, playlistId: string, ids: seq<string>, i: nat, completed: nat,
                  ghost answers: seq<InsertAnswer>, ghost log0: seq<Call>, ghost base: nat)
    returns (answer: InsertAnswer)
    requires i < |ids| && answers == Answers(api.insertAnswer, base, |ids|)
    requires api.inserts == base + i && api.log == log0 + Inserts(playlistId, ids[..i])
    requires Resumed(answers, i, completed)
    modifies api
    ensures answer == answers[i]
    ensures api.inserts == base + i + 1 && api.log == log0 + Inserts(playlistId, ids[..i + 1])
    ensures Is401(answer) ==> InsertionOf(answers) == Insertion(i + 1, completed, true)
    ensures !Is401(answer) ==>
              Resumed(answers, i + 1, completed + if answer == Inserted then 1 else 0)
  {
    answer := api.InsertVideo(playlistId, ids[i]);
    InsertionAdvance(answers, i, completed);
    InsertsSnoc(log0, playlistId, ids, i);
  }

  /** The log after the delete request for one more item. */
  lemma DeletesSnoc(log0: seq<Call>, ids: seq<string>, i: nat)
    requires i < |ids|
    ensures log0 + Deletes(ids[..i + 1]) == (log0 + Deletes(ids[..i])) + [DeleteItem(ids[i])]
  {
    var longer := Deletes(ids[..i + 1]);
    var shorter := Deletes(ids[..i]);
    assert forall k :: 0 <= k < i ==> longer[k] == shorter[k];
    assert longer == shorter + [DeleteItem(ids[i])];
  }

  /** The requests `fetchPlaylists` sends. */
  function FetchCalls(authStatus: bool, token: Option<string>): seq<Call> {
    if authStatus && Truthy(token) then [Call.ListPlaylists] else []
  }

  class Extractor {
    var message: string
    var extractedLinks: seq<string>
    var error: Notice
    var playlists: seq<Playlist>
    var selectedPlaylistId: string
    var isLoadingPlaylists: bool
    /** How many finished updates still have their delayed refresh to run. */
    var pendingRefreshes: nat
    var toasts: seq<Toast>

    /** The page's initial state. */
    constructor ()
      ensures message == "" && extractedLinks == [] && error == NoNotice
      ensures playlists == [] && selectedPlaylistId == "" && !isLoadingPlaylists
      ensures pendingRefreshes == 0 && toasts == []
    {
      message := "";
      extractedLinks := [];
      error := NoNotice;
      playlists := [];
      selectedPlaylistId := "";
      isLoadingPlaylists := false;
      pendingRefreshes := 0;
      toasts := [];
    }

    /**
     * `extractLinks`: replaces the list with the distinct links in the
     * message, in first-seen order, and clears the error.
     */
    method ExtractLinks()
      modifies this
      ensures extractedLinks == LinkScan.ExtractLinks(message) && error == NoNotice
      ensures message == old(message) && playlists == old(playlists)
      ensures selectedPlaylistId == old(selectedPlaylistId) && isLoadingPlaylists == old(isLoadingPlaylists)
      ensures pendingRefreshes == old(pendingRefreshes) && toasts == old(toasts)
    {
      var matches := LinkScan.Matches(message);
      extractedLinks := LinkScan.Dedup(matches);
      error := NoNotice;
    }

    /**
     * `fetchPlaylists`: nothing at all when signed out; otherwise the listing
     * of `AfterFetch`, and the loading flag is down again on every path.
     */
    method FetchPlaylists(authStatus: bool, store: LocalStorage, api: YouTubeApi)
      modifies this, api
      ensures var token := store.GetItem(AccessTokenKey);
              && api.log == old(api.log) + FetchCalls(authStatus, token)
              && (authStatus ==> Listing(playlists, error) ==
                                   AfterFetch(token, api.playlistsAnswer, old(Listing(playlists, error))))
              && (!authStatus ==> playlists == old(playlists) && error == old(error))
      ensures isLoadingPlaylists == (if authStatus then false else old(isLoadingPlaylists))
      ensures api.inserts == old(api.inserts)
      ensures message == old(message) && extractedLinks == old(extractedLinks)
      ensures selectedPlaylistId == old(selectedPlaylistId)
      ensures pendingRefreshes == old(pendingRefreshes) && toasts == old(toasts)
    {
      if !authStatus {
        return;
      }
      isLoadingPlaylists := true;
      var accessToken := store.GetItem(AccessTokenKey);
      if !Truthy(accessToken) {
        error := TokenMissing;
        isLoadingPlaylists := false;
        return;
      }
      var answer := api.ListPlaylists();
      match answer {
        case PlaylistsOk(items) =>
          playlists := items;
        case PlaylistsFailed =>
          error := PlaylistsLoadFailed;
      }
      isLoadingPlaylists := false;
    }
  
    /**
     * The insert loop of `handleUpdatePlaylist`: one insert per video in
     * order; a success counts and shows the progress, a 401 refusal stops
     * the loop, any other refusal or a thrown request is skipped. It gets as
     * far as `InsertionOf` says for the answers its inserts receive.
     */
    method InsertVideos(api: YouTubeApi, playlistId: string, ids: seq<string>) returns (ins: Insertion)
      modifies this`error, api
      ensures ins == InsertionOf(Answers(api.insertAnswer, old(api.inserts), |ids|))
      ensures api.log == old(api.log) + Inserts(playlistId, ids[..ins.attempted])
      ensures api.inserts == old(api.inserts) + ins.attempted
      ensures error == if ins.completed == 0 then old(error) else Progress(ins.completed, |ids|)
    {
      ghost var answers := Answers(api.insertAnswer, api.inserts, |ids|);
      ghost var log0, base, error0 := api.log, api.inserts, error;
      var completed := 0;
      var i := 0;
      var expired := false;
      while i < |ids| && !expired
        invariant 0 <= i <= |ids|
        invariant api.inserts == base + i
        invariant api.log == log0 + Inserts(playlistId, ids[..i])
        invariant !expired ==> Resumed(answers, i, completed)
        invariant expired ==> InsertionOf(answers) == Insertion(i, completed, true)
        invariant error == if completed == 0 then error0 else Progress(completed, |ids|)
      {
        var answer := InsertAt(api, playlistId, ids, i, completed, answers, log0, base);
        i := i + 1;
        if Is401(answer) {
          expired := true;
        } else if answer == Inserted {
          completed := completed + 1;
          error := Progress(completed, |ids|);
        }
      }
      if !expired {
        InsertionDone(answers, completed);
      }
      ins := Insertion(i, completed, expired);
    }

    /**
     * `handleUpdatePlaylist`: the requests it sends and how it ends are those
     * of `ReplaceRun` for the page's state, the stored token and the server's
     * answers. The error slot ends with the run's notice, a 401 signs the
     * user out, and a finished run shows its toast and schedules one refresh.
     */
    method HandleUpdatePlaylist(authStatus: bool, store: LocalStorage, api: YouTubeApi, ghost bound: nat)
      requires Proceeds(authStatus, selectedPlaylistId, extractedLinks, store.GetItem(AccessTokenKey)) ==>
                 PagesEndWithin(api.pages, selectedPlaylistId, "", bound)
      modifies this`error, this`toasts, this`pendingRefreshes, store, api
      ensures var run := ReplaceRun(authStatus, old(selectedPlaylistId), old(extractedLinks),
                                    old(store.GetItem(AccessTokenKey)), api.pages, api.insertAnswer,
                                    old(api.inserts), bound);
              && api.log == old(api.log) + run.calls
              && api.inserts == old(api.inserts) + |InsertedIds(run.calls)|
              && error == FinalNotice(run.outcome)
              && store.items == (if run.outcome.Expired? then WithoutTokens(old(store.items)) else old(store.items))
              && toasts == (if run.outcome.Done? then old(toasts) + [VideosAdded(run.outcome.completed)] else old(toasts))
              && pendingRefreshes == old(pendingRefreshes) + (if run.outcome.Done? then 1 else 0)
    {
      if !authStatus {
        error := SignInRequired;
        return;
      }
      if selectedPlaylistId == "" {
        error := ChoosePlaylist;
        return;
      }
      if |extractedLinks| == 0 {
        error := NoLinksExtracted;
        return;
      }
      var accessToken := store.GetItem(AccessTokenKey);
      if !Truthy(accessToken) {
        error := TokenMissing;
        return;
      }
      ReplaceContents(authStatus, store, api, bound,
                      ReplaceRun(authStatus, selectedPlaylistId, extractedLinks, accessToken,
                                 api.pages, api.insertAnswer, api.inserts, bound));
    }

    /**
     * `handleUpdatePlaylist` once its four checks have passed: the deletion
     * phase, the video IDs, the insert loop, and the ending the run calls for.
     */
    method ReplaceContents(authStatus: bool, store: LocalStorage, api: YouTubeApi, ghost bound: nat, ghost run: Run)
      requires Proceeds(authStatus, selectedPlaylistId, extractedLinks, store.GetItem(AccessTokenKey))
      requires PagesEndWithin(api.pages, selectedPlaylistId, "", bound)
      requires run == ReplaceRun(authStatus, selectedPlaylistId, extractedLinks, store.GetItem(AccessTokenKey),
                                 api.pages, api.insertAnswer, api.inserts, bound)
      modifies this`error, this`toasts, this`pendingRefreshes, store, api
      ensures api.log == old(api.log) + run.calls
      ensures api.inserts == old(api.inserts) + |InsertedIds(run.calls)|
      ensures error == FinalNotice(run.outcome)
      ensures store.items == (if run.outcome.Expired? then WithoutTokens(old(store.items)) else old(store.items))
      ensures toasts == (if run.outcome.Done? then old(toasts) + [VideosAdded(run.outcome.completed)] else old(toasts))
      ensures pendingRefreshes == old(pendingRefreshes) + (if run.outcome.Done? then 1 else 0)
    {
      var accessToken := store.GetItem(AccessTokenKey);
      error := Deleting;
      var listed := DeleteAll(api, selectedPlaylistId, bound);
      if !listed {
        AbortsBeforeInserting(authStatus, selectedPlaylistId, extractedLinks, accessToken, api.pages,
                              api.insertAnswer, old(api.inserts), bound);
        error := UpdateFailed;
        return;
      }
      AddLinkedVideos(authStatus, store, api, bound, run, old(api.log));
    }

    /**
     * `handleUpdatePlaylist` after a successful deletion phase: the video
     * IDs (a link `new URL` rejects fails the run), then the insert loop.
     */
    method AddLinkedVideos(authStatus: bool, store: LocalStorage, api: YouTubeApi, ghost bound: nat, ghost run: Run,
                           ghost log0: seq<Call>)
      requires Proceeds(authStatus, selectedPlaylistId, extractedLinks, store.GetItem(AccessTokenKey))
      requires PagesEndWithin(api.pages, selectedPlaylistId, "", bound)
      requires DeletionFrom(api.pages, selectedPlaylistId, "", bound).ok
      requires api.log == log0 + DeletionFrom(api.pages, selectedPlaylistId, "", bound).calls
      requires run == ReplaceRun(authStatus, selectedPlaylistId, extractedLinks, store.GetItem(AccessTokenKey),
                                 api.pages, api.insertAnswer, api.inserts, bound)
      modifies this`error, this`toasts, this`pendingRefreshes, store, api
      ensures api.log == log0 + run.calls
      ensures api.inserts == old(api.inserts) + |InsertedIds(run.calls)|
      ensures error == FinalNotice(run.outcome)
      ensures store.items == (if run.outcome.Expired? then WithoutTokens(old(store.items)) else old(store.items))
      ensures toasts == (if run.outcome.Done? then old(toasts) + [VideosAdded(run.outcome.completed)] else old(toasts))
      ensures pendingRefreshes == old(pendingRefreshes) + (if run.outcome.Done? then 1 else 0)
    {
      var accessToken := store.GetItem(AccessTokenKey);
      error := Adding;
      var videoIds := VideoIds(extractedLinks);
      if videoIds.Err? {
        AbortsBeforeInserting(authStatus, selectedPlaylistId, extractedLinks, accessToken, api.pages,
                              api.insertAnswer, old(api.inserts), bound);
        error := UpdateFailed;
        return;
      }
      AddScannedVideos(authStatus, store, api, bound, run, log0, videoIds.value);
    }

    /** The success path of `AddLinkedVideos`: every link gave its video ID. */
    method AddScannedVideos(authStatus: bool, store: LocalStorage, api: YouTubeApi, ghost bound: nat, ghost run: Run,
                            ghost log0: seq<Call>, ids: seq<string>)
      requires Proceeds(authStatus, selectedPlaylistId, extractedLinks, store.GetItem(AccessTokenKey))
      requires PagesEndWithin(api.pages, selectedPlaylistId, "", bound)
      requires DeletionFrom(api.pages, selectedPlaylistId, "", bound).ok
      requires api.log == log0 + DeletionFrom(api.pages, selectedPlaylistId, "", bound).calls
      requires VideoIds(extractedLinks) == Ok(ids)
      requires run == ReplaceRun(authStatus, selectedPlaylistId, extractedLinks, store.GetItem(AccessTokenKey),
                                 api.pages, api.insertAnswer, api.inserts, bound)
      modifies this`error, this`toasts, this`pendingRefreshes, store, api
      ensures api.log == log0 + run.calls
      ensures api.inserts == old(api.inserts) + |InsertedIds(run.calls)|
      ensures error == FinalNotice(run.outcome)
      ensures store.items == (if run.outcome.Expired? then WithoutTokens(old(store.items)) else old(store.items))
      ensures toasts == (if run.outcome.Done? then old(toasts) + [VideosAdded(run.outcome.completed)] else old(toasts))
      ensures pendingRefreshes == old(pendingRefreshes) + (if run.outcome.Done? then 1 else 0)
    {
      var accessToken := store.GetItem(AccessTokenKey);
      var ins := AddVideos(store, api, ids);
      AppendAssoc(log0, DeletionFrom(api.pages, selectedPlaylistId, "", bound).calls,
                  Inserts(selectedPlaylistId, ids[..ins.attempted]));
      InsertPhase(authStatus, selectedPlaylistId, extractedLinks, accessToken, api.pages, api.insertAnswer, old(api.inserts), bound);
    }

    /**
     * The insert loop and how the run ends after it: a 401 reports the
     * expired sign-in and signs out; otherwise the slot is cleared, the
     * success toast is shown and the delayed refresh is scheduled.
     */
    method AddVideos(store: LocalStorage, api: YouTubeApi, ids: seq<string>) returns (ins: Insertion)
      modifies this`error, this`toasts, this`pendingRefreshes, store, api
      ensures ins == InsertionOf(Answers(api.insertAnswer, old(api.inserts), |ids|))
      ensures api.log == old(api.log) + Inserts(selectedPlaylistId, ids[..ins.attempted])
      ensures api.inserts == old(api.inserts) + ins.attempted
      ensures error == if ins.expired then AuthExpired else NoNotice
      ensures store.items == if ins.expired then WithoutTokens(old(store.items)) else old(store.items)
      ensures toasts == if ins.expired then old(toasts) else old(toasts) + [VideosAdded(ins.completed)]
      ensures pendingRefreshes == old(pendingRefreshes) + if ins.expired then 0 else 1
    {
      ins := InsertVideos(api, selectedPlaylistId, ids);
      if ins.expired {
        error := AuthExpired;
        Logout(store);
        return;
      }
      error := NoNotice;
      toasts := toasts + [VideosAdded(ins.completed)];
      pendingRefreshes := pendingRefreshes + 1;
    }

    /**
     * The delayed refresh a finished update scheduled: `fetchPlaylists`, then
     * the message and the extracted links are cleared and a toast is shown.
     */
    method FinishRefresh(authStatus: bool, store: LocalStorage, api: YouTubeApi)
      requires pendingRefreshes > 0
      modifies this, api
      ensures var token := store.GetItem(AccessTokenKey);
              && api.log == old(api.log) + FetchCalls(authStatus, token)
              && (authStatus ==> Listing(playlists, error) ==
                                   AfterFetch(token, api.playlistsAnswer, old(Listing(playlists, error))))
              && (!authStatus ==> playlists == old(playlists) && error == old(error))
      ensures isLoadingPlaylists == (if authStatus then false else old(isLoadingPlaylists))
      ensures api.inserts == old(api.inserts)
      ensures message == "" && extractedLinks == []
      ensures selectedPlaylistId == old(selectedPlaylistId)
      ensures pendingRefreshes == old(pendingRefreshes) - 1 && toasts == old(toasts) + [ListRefreshed]
    {
      FetchPlaylists(authStatus, store, api);
      message := "";
      extractedLinks := [];
      toasts := toasts + [ListRefreshed];
      pendingRefreshes := pendingRefreshes - 1;
    }
  }
}
