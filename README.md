# cloudplaya client — a verified model

This project models the query-protocol layer of the cloudplaya client (`cloudplaya/client.py`).
The client talks to Amazon's Cloud Player service. The model covers:

- the positional encoders that flatten search criteria, sort keys, column lists and track ids
  into `<prefix>.member.<i>.<field>` request parameters;
- the request dispatcher `_get`, which merges the identity fields into the request body, builds
  the headers with a formatted request id, and classifies the reply;
- the payload navigator `_get_payload_data`;
- the paginated library search `_search_library`, modelled as a suspended generator object
  with a `Next` step and a reference run `Drive` over the pages the remote returns;
- the one-shot calls `get_track_list` and `get_song_stream_urls`, and `get_album`'s selection of
  the first result;
- the credential scan of `authenticate` (strip, `amznMusic.` filter, four matchers in order,
  stop at four), and the cookie header;
- the request-id formatter `_make_request_id`.

The network is an input. Each call takes the seven integer draws of its request id and the
reply (status and decoded body) the remote gives. The login page arrives as its lines, and the
cookie jar as a list of name/value pairs. Request and response values are a small JSON
datatype (`Protocol.Json`). Python's exceptions are the `Protocol.Error` cases of a `Result`.

Modules, one per file: `Wrappers`, `Protocol`, `Numerals` (base-10 and base-16 rendering and
parsing), `Criteria` (encoders), `Layout` (how the encoded pieces combine), `Payload`
(navigator), `RequestId`, `Dispatch` (`_get`), `Credentials`, `Search` (`_search_library`),
`Tracks` (`get_track_list`, `get_song_stream_urls`) and `Cloudplaya` (the `Client` class and
the `LibrarySearch` generator).

## Model

| member | source | states |
|---|---|---|
| Criteria.ParseMemberKey | cloudplaya/client.py:366 | a key `<prefix>.member.<n><suffix>` reads back as the index n and the suffix, so keys are determined by index and field |
| Criteria.DistinctKeys | cloudplaya/client.py:366-375 | different (index, field) pairs give different keys: no entry of an encoder overwrites another |
| Criteria.SearchCriteriaLayout | cloudplaya/client.py:362-377 | N criteria give exactly 3·N keys; the i-th triple (1-based) holds the i-th criterion's name, comparison and value, with '' for a criterion without a value; every key is positional with index 1..N |
| Criteria.SortCriteriaLayout | cloudplaya/client.py:387-395 | N sort keys give exactly 2·N keys `sortCriteriaList.member.i.{sortColumn,sortType}`, index 1 holding the first input, no gaps |
| Criteria.MemberListLayout | cloudplaya/client.py:379-385 | N items give exactly N keys `<prefix>.member.i`, the i-th holding the i-th item; duplicate items still occupy distinct indices |
| Criteria.CriteriaAfterFixed | cloudplaya/client.py:195 | with a fixed list prepended, the i-th caller criterion is encoded at index len(fixed) + i + 1 |
| Criteria.BuildSearchCriteria | cloudplaya/client.py:362-377 | the loop fills the dictionary to exactly the reference encoding, with 3·N entries and every triple at its index |
| Criteria.BuildSortCriteria | cloudplaya/client.py:387-395 | the loop fills the dictionary to exactly the reference encoding, with 2·N entries and every pair at its index |
| Criteria.BuildMemberList | cloudplaya/client.py:379-385 | the loop (also the one of get_song_stream_urls) fills exactly the reference encoding, with N entries and every item at its index |
| Layout.Disjoint | cloudplaya/client.py:257-259 | positional keys under prefixes that differ at some position never coincide |
| Layout.Compose | cloudplaya/client.py:249-259 | fixed parameters updated with criteria, columns and sort keys keep every fixed entry and place every criterion, column and sort key at its index, with exactly \|fixed\| + 3N + M + 2S entries |
| Payload.Contains | cloudplaya/client.py:355 | Python's `key in data`: key membership on a mapping; a TypeError (None) exactly on numbers, booleans and None |
| Payload.Descend | cloudplaya/client.py:355-358 | one step succeeds exactly on a mapping holding the key and returns its value; an absent key raises the missing-key error |
| Payload.Navigate | cloudplaya/client.py:353-360 | an empty path returns the input unchanged; every failure names a key of the path |
| Payload.NavigatePresent | cloudplaya/client.py:353-360 | navigation succeeds exactly when the path is present, and then returns the value at its end |
| Payload.NavigateAppend | cloudplaya/client.py:354-358 | navigating a + b is navigating a, then b from where a ended |
| Payload.FirstMissingKey | cloudplaya/client.py:354-356 | the first absent key is the one reported, whatever keys follow |
| Payload.AsWrittenLosesKey | cloudplaya/client.py:356 | the code as written agrees with the intended navigator except that an absent key raises the arity TypeError instead of naming the key |
| Payload.AsWrittenCounterexample | cloudplaya/client.py:356 | on `{}` with path `["searchLibraryResponse"]` the code as written raises the arity TypeError, the intended navigator names the key |
| Payload.Elements | cloudplaya/client.py:271-272 | `for item in items`: a list yields its elements, a string its one-character strings, anything else raises |
| Payload.GetPayloadData | cloudplaya/client.py:353-360 | the loop computes the navigator's result: the value at the end of a present path, a failure otherwise |
| RequestId.Hex | cloudplaya/client.py:341 | `hex(v)` starts with `0x` and has at least one digit |
| RequestId.SegmentDigits | cloudplaya/client.py:340-341 | for v in [65536, 131072), `hex(v)[3:]` is exactly four lower-case hex digits encoding v − 65536 |
| RequestId.Layout | cloudplaya/client.py:343-351 | with seven draws in range the id has 36 characters, hyphens at 8, 13, 18 and 23, `dmcp` as the third group, and segment i at its fixed offset |
| RequestId.ParseFormat | cloudplaya/client.py:343-351 | reading the seven segments back out of the id gives the seven draws |
| RequestId.FormatInjective | cloudplaya/client.py:343-351 | different draws give different ids |
| Dispatch.IdentityMerged | cloudplaya/client.py:291-297 | after the merge the body has `Operation`, `ContentType='JSON'` and the three `customerInfo.*` fields of the session (null when unset); every other key keeps its value |
| Dispatch.WithIdentityIdempotent | cloudplaya/client.py:291-297 | merging the identity fields twice is merging them once |
| Dispatch.Headers | cloudplaya/client.py:280-289 | exactly the eight headers, each with its value: the request id given, the session's token and cookies (null when unset), `XMLHttpRequest`, the user agent, referer and origin constants, and the host |
| Dispatch.HeadersDistinct | cloudplaya/client.py:281 | two calls with different draws carry different request ids |
| Dispatch.ErrorFields | cloudplaya/client.py:303-305 | the pair is read exactly when `Error`, `Error.Message` and `Error.Code` are all present, and it is then exactly (`Error.Message`, `Error.Code`) |
| Dispatch.Classify | cloudplaya/client.py:302-307 | success exactly on status 200, returning the body untouched; any other status fails with the remote's own message and code, or with a malformed-body error when they are absent |
| Dispatch.RejectionVerbatim | cloudplaya/client.py:302-305 | for any status other than 200 and any body holding `Error.Message` and `Error.Code`, extra keys allowed, the raised error carries that message and code unchanged |
| Dispatch.RejectionBody | cloudplaya/client.py:302-305 | the rejection body as the remote shapes it fails with its own message and code |
| Credentials.Strip | cloudplaya/client.py:111 | the stripped line has no whitespace at either end, and is empty exactly for an all-whitespace line |
| Credentials.StripInfix | cloudplaya/client.py:111 | the stripped line is a slice of the line with only whitespace cut off on both sides |
| Credentials.StripIdempotent | cloudplaya/client.py:111 | stripping twice is stripping once |
| Credentials.LastClose | cloudplaya/client.py:27-30 | the greedy `(.*)` ends at the last closing quote followed by `;` on the line |
| Credentials.MatchVar | cloudplaya/client.py:27-30 | a pattern matches only lines starting with `amznMusic` and a non-newline character |
| Credentials.MatchAssignment | cloudplaya/client.py:27-30 | each pattern captures the value of its own assignment line `amznMusic.<name> = '<value>';` |
| Credentials.OnlyOwnPattern | cloudplaya/client.py:27-30 | no pattern matches another field's assignment line |
| Credentials.FirstMatchSpec | cloudplaya/client.py:114-120 | the inner loop returns a field whose pattern matches, with its capture, and returns nothing exactly when no pattern matches |
| Credentials.FirstMatchUnique | cloudplaya/client.py:114-120 | when exactly one pattern matches, that field and its capture are returned |
| Credentials.ExamineAssignment | cloudplaya/client.py:111-120 | an assignment line is examined as its own field and value |
| Credentials.Put | cloudplaya/client.py:119 | the field is set and the three others are unchanged |
| Credentials.ScanIsApply | cloudplaya/client.py:108-123 | the count is the number of matching lines capped at four, and the variables are those of the first four matches applied in order |
| Credentials.ScanIgnores | cloudplaya/client.py:113-120 | a line that does not start with `amznMusic.` or matches no pattern changes nothing |
| Credentials.ApplyLast | cloudplaya/client.py:119 | a field takes the value of its last match |
| Credentials.ApplyUntouched | cloudplaya/client.py:94-99 | a field that never matched keeps its initial None |
| Credentials.AllFourOnce | cloudplaya/client.py:122-126 | four matches of four different fields make the scan succeed with every field set |
| Credentials.FourAssignments | cloudplaya/client.py:94-126 | the four assignment lines in any order give success and all four values |
| Credentials.DuplicateLinesQuirk | cloudplaya/client.py:117-125 | four customerId lines reach found == 4 while the adp token stays None |
| Credentials.MatchLine | cloudplaya/client.py:114-120 | the loop over the patterns returns the first match in `vars_map` order |
| Credentials.ExamineLine | cloudplaya/client.py:110-120 | a line is stripped and tried against the patterns only when it starts with `amznMusic.`; the result is the line's contribution to the scan |
| Credentials.ScanLines | cloudplaya/client.py:108-123 | the scan loop computes the reference scan: found is min(4, number of matching lines) |
| Credentials.CookiePairs | cloudplaya/client.py:128-129 | one `name=value` string per cookie, in jar order |
| Credentials.SplitJoin | cloudplaya/client.py:128 | splitting the `'; '`-joined parts gives the parts back when no part holds `;` |
| Credentials.CookieHeaderPairs | cloudplaya/client.py:128-129 | the cookie header is empty exactly for an empty jar, and otherwise splits back into the jar's `name=value` pairs |
| Search.PageRequestFixed | cloudplaya/client.py:249-261 | each page body carries the return type, album art size MEDIUM, an empty sort list, page size 50 and the token unchanged, and operation `searchLibrary` |
| Search.PageRequestLayout | cloudplaya/client.py:249-261 | each page body has exactly 10 + 3N + M + 2S entries with every criterion, column and sort key at its index |
| Search.UserCriteriaPlacement | cloudplaya/client.py:192-198 | with a fixed list first, the fixed criteria keep indices 1..len(fixed) and the caller's i-th criterion is sent at len(fixed) + i + 1 |
| Search.ArtistCriteriaPlacement | cloudplaya/client.py:40-43 | get_artists sends `trackStatus IS_NULL` second with an empty value |
| Search.ReadResult | cloudplaya/client.py:263-274 | a failed call yields nothing and raises its error; a page with items that fails can only be missing its token (malformed accepted replies: `Search.ReadPageMissing`, `Search.ReadPageNotIterable`) |
| Search.ReadPage | cloudplaya/client.py:261-274 | a rejected reply yields nothing and raises the classified error |
| Search.ReadPageMissing | cloudplaya/client.py:263-269 | an accepted reply missing a key of `searchLibraryResponse/searchLibraryResult/searchReturnItemList` yields nothing and fails naming the first missing key |
| Search.ReadPageNotIterable | cloudplaya/client.py:266-271 | an accepted reply whose item list is not a list yields nothing and fails as not iterable |
| Search.ReadPageBody | cloudplaya/client.py:263-274 | any accepted reply whose result holds an item list and a token, extra keys allowed, yields exactly those items and that token |
| Search.ReadPageNoToken | cloudplaya/client.py:271-274 | any accepted reply whose result holds an item list but no `nextResultsToken` still yields its items, then fails with the missing token |
| Search.DriveStep | cloudplaya/client.py:248-277 | one more call advances a run that goes on by the page its reply reads as |
| Search.DriveShaped | cloudplaya/client.py:243-277 | the run's invariant: tokens chain, items are the pages' items in order, and the phase matches the last page read |
| Search.FirstToken | cloudplaya/client.py:245 | the first call sends the empty token |
| Search.TokenChain | cloudplaya/client.py:254-277 | call k + 1 sends page k's `nextResultsToken`, a truthy one |
| Search.ItemsInOrder | cloudplaya/client.py:271-272 | no more calls than pages, and the items yielded are the pages' items concatenated in order |
| Search.KeepsFetching | cloudplaya/client.py:248-277 | while every page carries a truthy token, one call is made per page and the run goes on |
| Search.StopsAtFalsyToken | cloudplaya/client.py:274-277 | the run stops right after the first page with a falsy token: that page's index + 1 calls, and the items of those pages |
| Search.StopsAtError | cloudplaya/client.py:261-274 | an error on page k ends the run there, after k + 1 calls, raising that error |
| Search.Settled | cloudplaya/client.py:276-277 | once the run has ended, later pages are never asked for |
| Search.ThreePages | cloudplaya/client.py:243-277 | three pages with tokens t1, t2 and '' give calls with '', t1 and t2 and all items in order |
| Search.FirstResult | cloudplaya/client.py:220-228 | success exactly on an exhausted run; the first item when there is one, None otherwise; a failed run's error |
| Search.FirstOfFirstPage | cloudplaya/client.py:220-226 | with several results the first page's first item is returned, whatever later pages hold |
| Tracks.TrackListLayout | cloudplaya/client.py:141-163 | the track-list body has its five fixed parameters, the four criteria under `selectCriteriaList`, every column, and sort by disc then track number, 21 + M entries |
| Tracks.ItemList | cloudplaya/client.py:165-172 | a failed call's error is passed on (malformed replies: `Tracks.ItemListMissing`, `Tracks.ItemListNotIterable`) |
| Tracks.ItemListNotIterable | cloudplaya/client.py:166-172 | a reply whose path is present but ends at a value that is not a list fails as not iterable |
| Tracks.ItemListPresent | cloudplaya/client.py:166-172 | any reply whose path is present and ends at a list, extra keys allowed, gives back exactly that list's items |
| Tracks.ItemListMissing | cloudplaya/client.py:166-170 | a reply missing a key of the path fails naming the first missing key |
| Tracks.UrlOf | cloudplaya/client.py:186 | `item['url']` succeeds exactly on a mapping holding `url`, and returns it |
| Tracks.Urls | cloudplaya/client.py:186 | success exactly when every item has a url; then one url per item, in order |
| Tracks.UrlsFirstFailure | cloudplaya/client.py:186 | the error raised is that of the first item without a url |
| Tracks.StreamUrlsPresent | cloudplaya/client.py:181-186 | any reply whose stream path ends at a list of mappings each with a url, extra keys allowed, gives back exactly those urls, in order |
| Cloudplaya.SavedSession | cloudplaya/client.py:128-137 | the saved session holds the four scanned variables and the jar's cookie header |
| Cloudplaya.Client.constructor | cloudplaya/client.py:58-66 | no stored configuration: every field None and not authenticated; otherwise the stored session, authenticated |
| Cloudplaya.Client.Authenticate | cloudplaya/client.py:68-139 | succeeds exactly when the scan counts four; then the session is the scanned variables with the cookie header, authenticated; a failure changes nothing |
| Cloudplaya.Client.Get | cloudplaya/client.py:279-307 | the posted body is the merge with the current session, the headers carry the id of the draws, and the reply is classified |
| Cloudplaya.Client.ReadItems | cloudplaya/client.py:166-172 | navigating and iterating the reply computes the item list |
| Cloudplaya.Client.GetTrackList | cloudplaya/client.py:141-172 | posts exactly the track-list body with the identity fields and returns the listed items |
| Cloudplaya.Client.GetSongStreamUrls | cloudplaya/client.py:174-186 | posts exactly the `trackIdList` body with the identity fields and returns the urls of the reply |
| Cloudplaya.CollectUrls | cloudplaya/client.py:186 | the comprehension computes the url list, stopping at the first item without a url |
| Cloudplaya.StreamRequestSize | cloudplaya/client.py:175-180 | the stream-url body has exactly one entry per id plus the five identity fields |
| Cloudplaya.StreamIdsPlaced | cloudplaya/client.py:175-180 | every song id is sent at its index: the merge never overwrites a `trackIdList` entry |
| Cloudplaya.Client.Songs | cloudplaya/client.py:188-199 | a fresh track search with SONG_SEARCH before the caller's criteria, suspended before its first call; the search defaults to none and the sort to sortTitle ascending |
| Cloudplaya.Client.Albums | cloudplaya/client.py:201-212 | a fresh album search with ALBUM_SEARCH before the caller's criteria, suspended before its first call; the search defaults to none and the sort to sortAlbumName ascending |
| Cloudplaya.Client.Artists | cloudplaya/client.py:230-241 | a fresh artist search with ARTIST_SEARCH before the caller's criteria, suspended before its first call; the search defaults to none and the sort to sortArtistName ascending |
| Cloudplaya.Client.GetAlbum | cloudplaya/client.py:214-228 | the answer is the first item of the run over the replies (None when empty, the error when failed), and call k posted the album page body for the run's k-th token |
| Cloudplaya.AlbumRequest | cloudplaya/client.py:214-218 | get_album's pages send the status criterion first, the artist name second, the album name third, sorted by album name |
| Cloudplaya.LibrarySearch.constructor | cloudplaya/client.py:243-246 | a new search is fetching, with nothing read or yielded |
| Cloudplaya.LibrarySearch.BuildPage | cloudplaya/client.py:249-259 | the page body before `_get` is exactly the reference page parameters |
| Cloudplaya.LibrarySearch.ReadReply | cloudplaya/client.py:263-274 | the navigation, iteration and token read compute the reference page |
| Cloudplaya.LibrarySearch.Record | cloudplaya/client.py:271-277 | taking in a page keeps the generator equal to the reference run, records the page and the token it was fetched with, and appends its items to those yielded |
| Cloudplaya.LibrarySearch.Next | cloudplaya/client.py:248-277 | one resumption posts the page body for the current token, yields that page's items, and keeps the generator equal to the reference run over the pages read |
| Cloudplaya.LibrarySearch.Drain | cloudplaya/client.py:215-218 | `list(...)` over a fresh search resumes until the run ends or the replies run out; the pages read are those of the replies used, in order, and call k posted the page body for the run's k-th token under the client's session |

## Left out

- The browser login (mechanize, cookielib, the sign-in form) is left out: the model takes the lines of the page after sign-in and the cookie jar as inputs. `splitlines` is not modelled; the lines are given already split.
- `requests.post` and `r.json` are left out: each call takes the reply's status and decoded body as an input.
- The configuration file is left out: `_get_config_path`, and the file read and write. The constructor takes the stored session, if any, and `Authenticate` sets the fields the reload would read back. A configuration file that lacks a key (a KeyError in `_load_config`) is not modelled.
- `random.random()` and the floating-point `math.floor((1 + r) * 65536)` are left out: the seven integer draws are parameters. The range [65536, 131072) is assumed only by the request-id lemmas.
- Python's regular-expression engine is not modelled: the four patterns are hand-written matchers for exactly these patterns, including the adp-token pattern's single whitespace after `=`.
- `Song`, `Album` and `Artist` construction, their `COLUMNS` lists, and `logging` are not part of this model. Columns are parameters, and the raw items are returned or yielded.
- Payload.Elements: iterating a mapping yields its keys in Python; the model raises instead, because the iteration order is not fixed.
- Cloudplaya.Client.Get: `_get` updates the caller's dictionary in place. The model returns the merged body instead, so the aliasing is not modelled.
- Cloudplaya.LibrarySearch.Next: the generator's laziness is modelled as explicit `Next` calls. The session is read at each call, so a change of credentials between pages shows in the posted bodies.
- Cloudplaya.Client.GetAlbum: when the run needs more replies than it is given, the model answers with a transport error. The real call would go on asking the network.
- Python's exception classes are not modelled: each failure on a malformed reply is a distinct `Error` case, so callers can tell the cases apart where Python code would see only the exception's class. In cloudplaya/client.py: the KeyError or TypeError at lines 303-305 is MalformedErrorBody; a membership test or an index on a value that is not a mapping (lines 185, 355 and 357) is NotAMapping; iterating a value that is not a list (lines 172, 185 and 271) is NotIterable; the absent `nextResultsToken` at line 274 is MissingNextToken; the absent `url` at line 185 is MissingUrl. The one-argument `RequestError` at line 356 is a TypeError as written (RequestErrorArity, see Findings); MissingPayloadKey models the intended `RequestError` naming the key.
- Strings are sequences of characters; Python 2's distinction between byte and unicode strings is not modelled.

## Findings

| source | as written | input that shows it | evidently intended | confidence | as-written member | corrected member |
|---|---|---|---|---|---|---|
| cloudplaya/client.py:356 | `RequestError` is raised with one argument, but its `__init__` (line 18) requires both a message and a code, so the raise fails with a TypeError and the missing key's name is lost | `_get_payload_data({}, ['searchLibraryResponse'])` | raise `RequestError` naming the missing key | not executed | Payload.AsWrittenCounterexample | Payload.FirstMissingKey |
