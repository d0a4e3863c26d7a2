# YouTube playlist updater — a verified model

The application is a small React page. The user pastes a message, and the
page extracts the YouTube links in it. The user picks one of their
playlists, and the page replaces that playlist's contents with the linked
videos through the YouTube Data API. Sign-in goes through Google's OAuth2
authorization-code flow, and the two tokens are kept in `localStorage`.

This project models the logic behind that page, in Dafny:

- **Link extraction** (`link_scan.dfy`). The global pattern
  `(?:https?://)?(?:www\.)?(?:youtube\.com/watch\?v=|youtu\.be/)([a-zA-Z0-9_-]+)`
  is modelled as a scanner. At each position it tries the scheme, `www.` and
  host alternatives in the regex's order, then takes the greedy ID run, keeps
  the whole match and resumes after it. The scanner is proved sound and
  complete against a declarative description of the strings the pattern
  matches. `[...new Set(matches)]` is modelled as de-duplication that keeps
  first-seen order.
- **Video-ID derivation** (`video_ids.dfy`, `web_url.dfy`).
  - `new URL(link)` is modelled for the `http:`/`https:` strings the scanner
    produces; a link without a scheme throws.
  - A host of exactly `youtu.be` gives the path without its `/`; any other
    host gives the `v` query parameter, through `URLSearchParams.get`.
  - `.filter(Boolean)` then drops null and empty IDs.
- **The replace routine `handleUpdatePlaylist`**. It is modelled twice:
  - `replace_spec.dfy` holds a pure specification of one run: the requests
    sent, in order, and how the run ends.
  - `youtube_extractor.dfy` holds the component as a class whose methods
    mirror the source's loops. These are the do-while pagination over page
    tokens, the inner delete loop and the insert loop with its `completed`
    counter and 401 exit. Each method is proved against the specification.
  - The server is a `YouTubeApi` object (`playlist_api.dfy`) whose answers
    are fixed in advance and which logs every request.
- **`fetchPlaylists`** and the delayed refresh after a successful update.
  The refresh is modelled as a separate step, `FinishRefresh`, owed through
  a counter of pending refreshes.
- **Sign-in helpers** (`youtube_auth.dfy`, `storage.dfy`):
  - the consent-page query as an ordered list of pairs;
  - the code exchange that overwrites both token keys whenever the reply
    parses to a non-null JSON value, whatever its HTTP status;
  - `logout`;
  - `isAuthenticated`.
  `localStorage` is a class over a `map<string, string>`.
- **The OAuth redirect page** (`youtube_callback.dfy`): a three-way routing
  decision on the `code` query parameter and the exchange's result.

Inputs the pages read from the browser or the network are parameters of
the model:
- the `authStatus` prop;
- `location.search`;
- the token endpoint's reply, as a function of the request;
- the API's answers, as the fields of `YouTubeApi`.

The build-time client settings (`VITE_GOOGLE_CLIENT_ID`, the client secret
and the redirect URI) are the fields of `YouTubeAuth.Config`.

Three behaviours of the code that a reader might not expect:
- A link without a scheme (`youtu.be/ID`, or a match that starts inside
  `m.youtube.com/...`) is not simply skipped during ID derivation.
  `new URL` throws on it, and the whole update ends with the generic
  failure. This happens after every deletion has already been sent
  (`ReplaceSpec.AbortsBeforeInserting`, `ReplaceSpec.SchemeLessLinkFails`).
- The signed-in test is true only when the stored access token is
  non-empty, not merely present (`YouTubeAuth.IsAuthenticated`).
- A `https://www.youtu.be/ID` link is extracted by the pattern, but its host is not
  exactly `youtu.be` and it has no `v` parameter. So it yields no ID and is
  silently dropped (`VideoId.LinkVideoId`, `VideoId.WwwShortLinkExample`).

## Model

| member | source | states |
|---|---|---|
| LinkScan.MatchAt | src/pages/YouTubeExtractor.tsx:87 | a match found at a position is a whole link of its form: the prefix, then a non-empty run of `[a-zA-Z0-9_-]`; the run stops at the end of the text or at a non-ID character (the `+` is greedy) |
| LinkScan.MatchAfter | src/pages/YouTubeExtractor.tsx:87 | once a prefix is recognised, a match needs a non-empty ID run after it and takes the whole run, ending at the end of the text or at a non-ID character |
| LinkScan.PrefixAtOf | src/pages/YouTubeExtractor.tsx:87 | when a full prefix of some form is present, the scheme, `www.` and host groups pick exactly that form's alternatives: the alternatives the regex tries first cannot succeed |
| LinkScan.MatchAtComplete | src/pages/YouTubeExtractor.tsx:87 | whatever the pattern can match at a position, the scanner finds there, with the same form and an ID run at least as long |
| LinkScan.MatchesAreLinks | src/pages/YouTubeExtractor.tsx:87-88 | every string `message.match` returns is a whole link of the pattern (not only the capture group) |
| LinkScan.MatchesEmptyIff | src/pages/YouTubeExtractor.tsx:88 | the scan is empty exactly when no start position has a match |
| LinkScan.NoLinkNoMatches | src/pages/YouTubeExtractor.tsx:87-88 | the match list is empty if and only if no substring of the text is a link |
| LinkScan.LinkHasNoAmpersand | src/pages/YouTubeExtractor.tsx:87 | a link never contains `&`, so trailing `&list=...` parameters are never part of an extracted link |
| LinkScan.Dedup | src/pages/YouTubeExtractor.tsx:90 | the `Set` spread has no duplicates, holds exactly the elements of its input and is no longer than it |
| LinkScan.DedupFirstSeenOrder | src/pages/YouTubeExtractor.tsx:90 | the de-duplicated links are ordered by their first occurrence in the matches |
| LinkScan.DedupOfDistinct | src/pages/YouTubeExtractor.tsx:90 | input without repeats comes back unchanged, so de-duplicating twice changes nothing |
| LinkScan.ExtractLinksSpec | src/pages/YouTubeExtractor.tsx:86-93 | the extracted list is the distinct whole matches in first-seen order, each a link without `&`; it is empty exactly when nothing matches, and de-duplicating it again changes nothing |
| YouTubeExtractorPage.Extractor.ExtractLinks | src/pages/YouTubeExtractor.tsx:86-93 | the button replaces the extracted list with the extraction of the message, clears the error slot and changes nothing else |
| WebUrl.GetDistinct | src/pages/YouTubeExtractor.tsx:160 | `URLSearchParams.get` on pairs with distinct names returns each pair's own value |
| WebUrl.ParseQueryString | src/pages/YouTubeExtractor.tsx:160 | parsing a query written from separator-free pairs gives those pairs back, in order |
| WebUrl.ParseHref | src/pages/YouTubeExtractor.tsx:156 | the model's parser reads the text of a well-formed `http(s)` URL back into its hostname, pathname and search; well-formed means a non-empty host of lower-case letters, digits, `.` and `-`, a path starting with `/` of letters, digits, `/`, `_` and `-`, and a query of letters, digits, `_`, `-`, `.`, `=` and `&`; `new URL` agrees with it on the four hosts scanned links carry (`youtu.be` and `youtube.com`, with or without `www.`) |
| VideoId.VideoIds | src/pages/YouTubeExtractor.tsx:155-161 | the derivation succeeds exactly when every link parses as a URL; its IDs are never more than the links and never empty |
| VideoId.LinkVideoId | src/pages/YouTubeExtractor.tsx:156-160 | for each of the twelve link forms: `youtu.be/ID` and `youtube.com/watch?v=ID` (with or without `www.`) give the ID, `www.youtu.be/ID` gives nothing, and a link without a scheme throws |
| VideoId.ScannedVideoId | src/pages/YouTubeExtractor.tsx:155-160 | the same, for any string the scanner accepts as a link |
| VideoId.VideoIdsOfScanned | src/pages/YouTubeExtractor.tsx:155-161 | on scanned links that all carry a scheme, the derivation succeeds and its IDs are exactly the runs after each link's prefix, in link order, leaving out the `www.youtu.be` links |
| VideoId.ScannedIdsMembers | src/pages/YouTubeExtractor.tsx:155-161 | an ID is among those read off scanned links exactly when one link that is not a `www.youtu.be` link has it as the run after its prefix |
| VideoId.NoSchemeThrows | src/pages/YouTubeExtractor.tsx:156 | `new URL` throws on a link without `http://` or `https://` |
| VideoId.ShortLinkExample | src/pages/YouTubeExtractor.tsx:157-158 | `https://youtu.be/ABC123` gives `ABC123` |
| VideoId.WatchLinkExample | src/pages/YouTubeExtractor.tsx:160 | `https://www.youtube.com/watch?v=XYZ789` gives `XYZ789` |
| VideoId.WwwShortLinkExample | src/pages/YouTubeExtractor.tsx:157-160 | `https://www.youtu.be/ABC123` gives no ID |
| VideoId.BareLinkExample | src/pages/YouTubeExtractor.tsx:156 | `youtu.be/ABC123` makes `new URL` throw |
| PlaylistApi.NextToken | src/pages/YouTubeExtractor.tsx:150 | the token the loop continues with (`nextPageToken`, or the empty string when it is absent) is non-empty exactly when the page's token is present and non-empty |
| ReplaceSpec.ReplaceRun | src/pages/YouTubeExtractor.tsx:95-232 | the sign-in, playlist, links and token checks run in that order, each stopping the run exactly when it fails and the earlier ones passed; a stopped run sends no request; any other run first lists the playlist's first page |
| ReplaceSpec.DeletionFrom | src/pages/YouTubeExtractor.tsx:120-151 | the deletion phase always sends at least one listing request, and the first one asks for the page of its starting token |
| ReplaceSpec.TokenChain | src/pages/YouTubeExtractor.tsx:120-151 | the page tokens the loop visits, never empty and starting with the token the loop starts from |
| ReplaceSpec.TokenChainLinks | src/pages/YouTubeExtractor.tsx:120-151 | in the chain each next token is the previous page's non-empty `nextPageToken`, and the last page failed or has no next token |
| ReplaceSpec.DeletionFollowsChain | src/pages/YouTubeExtractor.tsx:120-151 | the deletion phase lists exactly the pages of the token chain, sends exactly one delete per listed item, in order, whatever the deletes answer, inserts nothing, and succeeds exactly when the last listing did |
| ReplaceSpec.Deletes | src/pages/YouTubeExtractor.tsx:138-148 | one delete request per listed item, in order |
| ReplaceSpec.InsertionOf | src/pages/YouTubeExtractor.tsx:166-202 | `completed` never exceeds the inserts attempted, which never exceed the IDs; a loop cut short ends on a 401 answer; otherwise every ID was tried |
| ReplaceSpec.InsertionCounts | src/pages/YouTubeExtractor.tsx:166-202 | `completed` counts exactly the successful answers among those received, and no answer before the last one was a 401 (none at all when the loop ran to the end) |
| ReplaceSpec.Inserts | src/pages/YouTubeExtractor.tsx:166-184 | one insert request per video, in order, each for the selected playlist |
| ReplaceSpec.AbortsBeforeInserting | src/pages/YouTubeExtractor.tsx:131-156 | a failed listing, or a link `new URL` rejects, ends the run with the generic failure before any insert, after every deletion of the phase was already sent |
| ReplaceSpec.InsertPhase | src/pages/YouTubeExtractor.tsx:163-202 | after a successful deletion phase the run sends one insert per video it gets to, in order; it ends expired after a 401, with no further inserts, or done with every video attempted; it reports the count of successes out of all IDs |
| ReplaceSpec.DoneInsertsScannedIds | src/pages/YouTubeExtractor.tsx:153-202 | when every scanned link carries a scheme, a run that finishes has sent inserts for exactly the IDs read off the links, in link order |
| ReplaceSpec.SchemeLessLinkFails | src/pages/YouTubeExtractor.tsx:155-156 | a scanned link without a scheme makes the ID derivation, and so the run, fail |
| YouTubeExtractorPage.AfterFetch | src/pages/YouTubeExtractor.tsx:45-74 | a missing token is reported without a request; a successful answer replaces the playlists; a failure reports the loading error and keeps the old list |
| YouTubeExtractorPage.Extractor.FetchPlaylists | src/pages/YouTubeExtractor.tsx:41-78 | when signed out, nothing at all happens; otherwise the listing of `AfterFetch`, at most one request, and the loading flag is down again on every path |
| YouTubeExtractorPage.DeleteItems | src/pages/YouTubeExtractor.tsx:138-148 | the inner loop sends one delete per listed item, in order, and nothing else |
| YouTubeExtractorPage.DeletePage | src/pages/YouTubeExtractor.tsx:121-150 | one turn of the do-while loop sends what the deletion phase prescribes for its token and hands on the next token |
| YouTubeExtractorPage.DeleteAll | src/pages/YouTubeExtractor.tsx:120-151 | the do-while loop sends exactly the requests of the deletion phase and reports whether every listing succeeded |
| YouTubeExtractorPage.InsertAt | src/pages/YouTubeExtractor.tsx:166-195 | one turn of the insert loop sends the next insert and gets the next answer; a 401 settles the loop's result, any other answer keeps it on track |
| YouTubeExtractorPage.Extractor.InsertVideos | src/pages/YouTubeExtractor.tsx:163-202 | the insert loop gets exactly as far as `InsertionOf` says for the answers it receives, sends those inserts in order, and shows the progress count after each success |
| YouTubeExtractorPage.Extractor.AddVideos | src/pages/YouTubeExtractor.tsx:163-212 | after the loop a 401 shows the expiry notice and signs out; otherwise the slot is cleared, the success toast shows the count and one refresh is scheduled |
| YouTubeExtractorPage.Extractor.AddScannedVideos | src/pages/YouTubeExtractor.tsx:163-212 | when every link gave its video ID, the insert phase sends exactly the run's inserts after the deletions, and the notice, store, toasts and pending refresh follow the run's outcome |
| YouTubeExtractorPage.Extractor.AddLinkedVideos | src/pages/YouTubeExtractor.tsx:153-212 | after the deletions, a link `new URL` rejects ends the run with the generic failure; otherwise the videos are added as the run prescribes |
| YouTubeExtractorPage.Extractor.ReplaceContents | src/pages/YouTubeExtractor.tsx:111-231 | past the checks, the routine sends exactly the run's requests, and its error slot, store, toasts and pending refresh follow the run's outcome |
| YouTubeExtractorPage.Extractor.HandleUpdatePlaylist | src/pages/YouTubeExtractor.tsx:95-232 | the whole routine sends exactly the requests `ReplaceRun` prescribes, in order, and ends with that run's notice; it signs out exactly on a 401; a finished run shows one toast and schedules one refresh |
| YouTubeExtractorPage.Extractor.FinishRefresh | src/pages/YouTubeExtractor.tsx:214-226 | the delayed step refreshes the playlists as `fetchPlaylists` does, clears the message and the extracted links, and shows the refresh toast |
| YouTubeExtractorPage.Extractor.constructor | src/pages/YouTubeExtractor.tsx:33-39 | the page starts with an empty message, no links, no error, no playlists, none selected and not loading |
| YouTubeAuth.ScopesSplit | src/utils/youtubeAuth.ts:9-12 | the scope value is the two scope URLs joined by one space, `youtube.force-ssl` first, and splitting it on spaces gives them back |
| YouTubeAuth.ConsentOrder | src/utils/youtubeAuth.ts:14-20 | the consent query names exactly `client_id`, `redirect_uri`, `response_type`, `scope`, `access_type`, `prompt`, once each, in that order |
| YouTubeAuth.ConsentValues | src/utils/youtubeAuth.ts:9-20 | reading the consent query back gives the client settings, `code`, both scopes, `offline` and `consent` |
| YouTubeAuth.TokenRequestFields | src/utils/youtubeAuth.ts:32-38 | the token request carries the code, the client id and secret, the redirect URI and the `authorization_code` grant, once each |
| YouTubeAuth.Stored | src/utils/youtubeAuth.ts:42-43 | `setItem` stores a string field as is, a missing one as `"undefined"` and `null` as `"null"` |
| YouTubeAuth.StoreTokens | src/utils/youtubeAuth.ts:42-43 | both token keys hold the reply's values and every other key is as it was |
| YouTubeAuth.HandleAuthCallback | src/utils/youtubeAuth.ts:25-49 | the result is true exactly when the reply parsed to a non-null JSON value, whatever its HTTP status, and then both keys are overwritten; when the request or the parse throws the result is false and the store is unchanged |
| YouTubeAuth.IsAuthenticated | src/utils/youtubeAuth.ts:57-59 | signed in exactly when the access-token key is present with a non-empty value |
| YouTubeAuth.WithoutTokens | src/utils/youtubeAuth.ts:51-53 | no token key is left and every other key is untouched |
| YouTubeAuth.Logout | src/utils/youtubeAuth.ts:51-55 | `logout` removes both token keys and nothing else |
| YouTubeAuth.LogoutSignsOut | src/utils/youtubeAuth.ts:51-59 | after `logout` nobody is signed in |
| YouTubeAuth.CallbackSignsIn | src/utils/youtubeAuth.ts:41-44 | after an exchange whose reply parsed to a non-null value, the page counts as signed in unless the access token was the empty string, so an error body (stored as `"undefined"`) still signs in |
| YouTubeAuth.CallbackThenLogout | src/utils/youtubeAuth.ts:41-53 | signing in and then out leaves every other key as it was before signing in |
| YouTubeCallbackPage.HandleCallback | src/pages/YouTubeCallback.tsx:9-23 | exactly one navigation and at most one exchange; a missing or empty code goes to `/?error=no_code` without an exchange; otherwise the code is exchanged once, and the page goes to `/` on success and to `/?error=auth_failed` on failure, each as the path of the route taken |
| YouTubeCallbackPage.RunCallback | src/pages/YouTubeCallback.tsx:9-23 | the page's route is the decision of `HandleCallback` with `handleAuthCallback` as the exchange, and the store changes exactly when that exchange succeeds |
| YouTubeCallbackPage.NoQueryNoCode | src/pages/YouTubeCallback.tsx:10-22 | a page opened without a query reports the missing code and exchanges nothing |

## Left out

- JSX rendering, the Chakra UI components and the React hooks. Component state is plain fields, and the `useEffect` that calls `fetchPlaylists` when `authStatus` changes is not modelled.
- The setters bound to the text area and the playlist selector are not modelled. The model's methods read `message` and `selectedPlaylistId` as they are.
- Real `fetch`, request URLs, HTTP headers, the API key and the bearer token are not modelled. Each request is a `Call` in the API object's log, and each answer is an input.
- JSON shapes are not modelled. A playlist listing is already the formatted list, a page of items is its IDs and next token, and an insert answer is success, refusal with its `error.code`, or a thrown request.
- `window.location` navigation and `location.reload()` in `logout` are browser I/O. Logout is modelled as clearing the two keys, and navigation as the route the callback page chooses.
- The environment-selected constants (`CLIENT_ID`, `CLIENT_SECRET`, `REDIRECT_URI`, `API_KEY`) are parameters, not values.
- Percent-encoding and `+` decoding by `URLSearchParams`, and all of the WHATWG URL parser beyond the `http(s)` strings the scanner produces, are left out: the model's parser does not lower-case hosts, read a numeric last label as IPv4 or reject invalid `xn--` labels. The consent query is modelled as its ordered list of pairs.
- The user-visible messages are `Notice` constructors and toasts; their Korean wording is not modelled.
- The 1500 ms timer is not modelled. The refresh it runs is the separate step `Extractor.FinishRefresh`, owed once per successful update.
- Concurrency is left out: re-entrant clicks while an update is in flight, and the interleaving of the refresh with later actions.
- `console.error` logging is left out.
- YouTubeAuth.HandleAuthCallback: takes `localStorage.getItem`, `setItem` and `removeItem` never to throw. A `setItem` that fails (a full quota) on the refresh-token key would make the source answer false with the new access token already stored; the model does not capture that.
- A rejected `DELETE` request, which would reach the outer catch, is not modelled: every delete is taken to return.
- YouTubeExtractorPage.DeleteAll: requires the server's page chain to end within a ghost bound of pages. A server whose tokens cycle makes the source's do-while loop run forever, and that run is not modelled.
- YouTubeExtractorPage.Extractor.HandleUpdatePlaylist: has the same requirement on the page chain when the checks pass.
- The server's pages are fixed for the whole run, so the model does not capture the real server shifting its pages as items are deleted.
- The `authStatus` prop is an input. The route wiring that supplies it (it passes none, so it is undefined in the running app) is not part of this model.
