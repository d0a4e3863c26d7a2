/**
 * The YouTube Data API as the page uses it, with the server's answers fixed
 * in advance: the signed-in user's playlists, pages of playlist items keyed
 * by playlist and page token, and the answer to each insert in turn. Every
 * request is appended to a log.
 */
module PlaylistApi {
  import opened Common

  /** One playlist as the page keeps it. */
  datatype Playlist = Playlist(id: string, title: string, itemCount: int)

  /** The playlists request: the formatted list, or any failure (non-ok status, network, malformed body). */
  datatype PlaylistsAnswer = PlaylistsOk(items: seq<Playlist>) | PlaylistsFailed

  /** One page of playlist items: their IDs and the next page token, or any failure. */
  datatype ListAnswer = Page(itemIds: seq<string>, nextPageToken: Option<string>) | ListFailed

  /** One insert: accepted, refused with the body's `error.code` if it has one, or thrown. */
  datatype InsertAnswer = Inserted | Refused(errorCode: Option<int>) | InsertThrew

  /** The requests the page sends. */
  datatype Call =
    | ListPlaylists
    | ListItems(playlistId: string, pageToken: string)
    | DeleteItem(itemId: string)
    | InsertVideo(playlistId: string, videoId: string)

  /** `nextPageToken || ''`: an absent token reads as the empty one. */
  function NextToken(t: Option<string>): (s: string)
    ensures s != "" <==> Truthy(t)
  {
    if t.Some? then t.value else ""
  }

  /** The page the server gives for a playlist and token; one it has none for is a failure. */
  function PageAt(pages: map<(string, string), ListAnswer>, playlistId: string, token: string): ListAnswer {
    if (playlistId, token) in pages then pages[(playlistId, token)] else ListFailed
  }

  /** A refused insert whose body says `error.code === 401`. */
  predicate Is401(a: InsertAnswer) {
    a == Refused(Some(401))
  }

  class YouTubeApi {
    const playlistsAnswer: PlaylistsAnswer
    const pages: map<(string, string), ListAnswer>
    const insertAnswer: nat -> InsertAnswer
    /** Every request made so far, in order. */
    var log: seq<Call>
    /** How many inserts were made so far; the next one gets `insertAnswer(inserts)`. */
    var inserts: nat

    constructor (playlistsAnswer: PlaylistsAnswer, pages: map<(string, string), ListAnswer>,
                 insertAnswer: nat -> InsertAnswer)
      ensures this.playlistsAnswer == playlistsAnswer && this.pages == pages
      ensures this.insertAnswer == insertAnswer
      ensures log == [] && inserts == 0
    {
      this.playlistsAnswer := playlistsAnswer;
      this.pages := pages;
      this.insertAnswer := insertAnswer;
      log := [];
      inserts := 0;
    }

    /** `GET playlists?mine=true`. */
    method ListPlaylists() returns (a: PlaylistsAnswer)
      modifies this
      ensures a == playlistsAnswer
      ensures log == old(log) + [Call.ListPlaylists] && inserts == old(inserts)
    {
      log := log + [Call.ListPlaylists];
      a := playlistsAnswer;
    }

    /** `GET playlistItems?playlistId=…&pageToken=…`. */
    method ListItems(playlistId: string, token: string) returns (a: ListAnswer)
      modifies this
      ensures a == PageAt(pages, playlistId, token)
      ensures log == old(log) + [Call.ListItems(playlistId, token)] && inserts == old(inserts)
    {
      log := log + [Call.ListItems(playlistId, token)];
      a := PageAt(pages, playlistId, token);
    }

    /** `DELETE playlistItems?id=…`; the page never reads its answer. */
    method DeleteItem(itemId: string)
      modifies this
      ensures log == old(log) + [Call.DeleteItem(itemId)] && inserts == old(inserts)
    {
      log := log + [Call.DeleteItem(itemId)];
    }

    /** `POST playlistItems` for one video. */
    method InsertVideo(playlistId: string, videoId: string) returns (a: InsertAnswer)
      modifies this
      ensures a == insertAnswer(old(inserts))
      ensures log == old(log) + [Call.InsertVideo(playlistId, videoId)] && inserts == old(inserts) + 1
    {
      log := log + [Call.InsertVideo(playlistId, videoId)];
      a := insertAnswer(inserts);
      inserts := inserts + 1;
    }
  }
}
