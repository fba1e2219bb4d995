/**
 * The client object: the session it holds and updates, the calls it makes through `_get`,
 * and the library-search generator. The remote is an input: each call takes the seven random
 * draws of its request id and the reply the remote gives, and returns the body it posts.
 */
module Cloudplaya {
  import opened Wrappers
  import opened Protocol
  import opened Criteria
  import opened Payload
  import opened Dispatch
  import RequestId
  import opened Credentials
  import opened Search
  import opened Tracks
  import opened Layout

  /** The saved session `authenticate` writes: the four variables and the cookie header. */
  function SavedSession(vars: AuthVars, jar: seq<Cookie>): (s: Session)
    ensures s.customerId == vars.customerId && s.adpToken == vars.adpToken
    ensures s.deviceId == vars.deviceId && s.deviceType == vars.deviceType
    ensures s.cookies == Some(CookieHeader(jar))
  {
    Session(vars.customerId, vars.adpToken, vars.deviceId, vars.deviceType, Some(CookieHeader(jar)))
  }

  /** Every call of a run well-formed: seven draws for its request id. */
  predicate Drawable(exchanges: seq<Exchange>)
  {
    forall i | 0 <= i < |exchanges| :: |exchanges[i].draws| == 7
  }

  class Client {
    var customerId: Option<string>
    var adpToken: Option<string>
    var deviceId: Option<string>
    var deviceType: Option<string>
    var cookies: Option<string>
    var authenticated: bool

    /** The session the next call sends. */
    function State(): Session
      reads this
    {
      Session(customerId, adpToken, deviceId, deviceType, cookies)
    }

    /**
     * `__init__` followed by `_load_config`: everything empty and unauthenticated when no
     * configuration is stored, the stored session and authenticated otherwise.
     */
    constructor (stored: Option<Session>)
      ensures stored.None? ==> State() == Session(None, None, None, None, None) && !authenticated
      ensures stored.Some? ==> State() == stored.value && authenticated
    {
      customerId, adpToken, deviceId, deviceType, cookies := None, None, None, None, None;
      authenticated := false;
      if stored.Some? {
        var config := stored.value;
        customerId := config.customerId;
        adpToken := config.adpToken;
        deviceId := config.deviceId;
        deviceType := config.deviceType;
        cookies := config.cookies;
        authenticated := true;
      }
    }

    /**
     * `authenticate`, given the lines of the page after sign-in and the cookie jar: it
     * succeeds exactly when the scan counts four matching lines, and then saves and reloads
     * the variables found with the jar's cookie header; a failed scan changes nothing.
     */
    method Authenticate(lines: seq<string>, jar: seq<Cookie>) returns (ok: bool)
      modifies this
      ensures ok <==> Scan(lines).found == Needed
      ensures ok ==> State() == SavedSession(Scan(lines).vars, jar) && authenticated
      ensures !ok ==> State() == old(State()) && authenticated == old(authenticated)
    {
      var found, vars := ScanLines(lines);
      if found != Needed {
        return false;
      }
      var saved := SavedSession(vars, jar);
      customerId := saved.customerId;
      adpToken := saved.adpToken;
      deviceId := saved.deviceId;
      deviceType := saved.deviceType;
      cookies := saved.cookies;
      authenticated := true;
      return true;
    }

    /**
     * `_get`: the body posted is the caller's with the operation and the session's identity
     * merged in, the headers carry the id formatted from the draws and the session's token
     * and cookies, and the reply is classified.
     */
    method Get(operation: string, data: Request, draws: seq<nat>, reply: Response)
      returns (body: Request, headers: map<string, Json>, result: Result<Json, Error>)
      requires |draws| == 7
      ensures body == WithIdentity(data, operation, State())
      ensures headers == Headers(RequestId.Format(draws), State())
      ensures result == Classify(reply)
      ensures result.Success? <==> reply.status == 200
    {
      var requestId := RequestId.Format(draws);
      headers := Headers(requestId, State());
      body := WithIdentity(data, operation, State());
      if reply.status != 200 {
        var fields := ErrorFields(reply.body);
        if fields.None? {
          result := Failure(MalformedErrorBody);
        } else {
          result := Failure(RequestError(fields.value.0, fields.value.1));
        }
      } else {
        result := Success(reply.body);
      }
    }

    /** `_get_payload_data`, then `for item in items`. */
    method ReadItems(result: Result<Json, Error>, path: seq<string>) returns (r: Result<seq<Json>, Error>)
      ensures r == ItemList(result, path)
    {
      if result.Failure? {
        return Failure(result.error);
      }
      var list := GetPayloadData(result.value, path);
      if list.Failure? {
        return Failure(list.error);
      }
      var items := Elements(list.value);
      if items.None? {
        return Failure(NotIterable);
      }
      return Success(items.value);
    }

    /**
     * `get_track_list`: posts the album's track-list body and returns the listed track
     * items, in the order the remote lists them.
     */
    method GetTrackList(album: AlbumInfo, columns: seq<string>, draws: seq<nat>, reply: Response)
      returns (sent: Request, r: Result<seq<Json>, Error>)
      requires |draws| == 7
      ensures sent == WithIdentity(TrackListParams(album, columns), TrackOperation, State())
      ensures r == ItemList(Classify(reply), TrackListPath)
    {
      var data := TrackFixed(album);
      var criteria := BuildSearchCriteria(TrackCriteria(album), SelectPrefix);
      data := data + criteria;
      var selected := BuildMemberList(ColumnsPrefix, columns);
      data := data + selected;
      var sorting := BuildSortCriteria(TrackSort);
      data := data + sorting;
      var headers, result;
      sent, headers, result := Get(TrackOperation, data, draws, reply);
      r := ReadItems(result, TrackListPath);
    }

    /**
     * `get_song_stream_urls`: posts one `trackIdList` entry per id and returns the url of
     * each listed item, in order.
     */
    method GetSongStreamUrls(songIds: seq<string>, draws: seq<nat>, reply: Response)
      returns (sent: Request, r: Result<seq<Json>, Error>)
      requires |draws| == 7
      ensures sent == WithIdentity(MemberListParams(TrackIdPrefix, songIds), StreamOperation, State())
      ensures r == StreamUrls(Classify(reply))
    {
      var data := BuildMemberList(TrackIdPrefix, songIds);
      var headers, result;
      sent, headers, result := Get(StreamOperation, data, draws, reply);
      var items := ReadItems(result, StreamPath);
      if items.Failure? {
        return sent, Failure(items.error);
      }
      r := CollectUrls(items.value);
    }

    /**
     * `get_songs`: a search for tracks, suspended before its first call. Without a search
     * it lists every available track; without a sort it sorts by title.
     */
    method Songs(columns: seq<string>, search: seq<SearchCriterion> := [], sort: seq<SortCriterion> := DefaultSongSort)
      returns (g: LibrarySearch)
      ensures fresh(g) && g.Valid() && g.client == this && g.query == SongsQuery(search, sort, columns)
      ensures g.pages == [] && g.phase == Fetching
    {
      g := new LibrarySearch(this, SongsQuery(search, sort, columns));
    }

    /**
     * `get_albums`: a search for albums, suspended before its first call. Without a search
     * it lists every album; without a sort it sorts by album name.
     */
    method Albums(columns: seq<string>, search: seq<SearchCriterion> := [], sort: seq<SortCriterion> := DefaultAlbumSort)
      returns (g: LibrarySearch)
      ensures fresh(g) && g.Valid() && g.client == this && g.query == AlbumsQuery(search, sort, columns)
      ensures g.pages == [] && g.phase == Fetching
    {
      g := new LibrarySearch(this, AlbumsQuery(search, sort, columns));
    }

    /**
     * `get_artists`: a search for artists, suspended before its first call. Without a
     * search it lists every artist; without a sort it sorts by artist name.
     */
    method Artists(columns: seq<string>, search: seq<SearchCriterion> := [], sort: seq<SortCriterion> := DefaultArtistSort)
      returns (g: LibrarySearch)
      ensures fresh(g) && g.Valid() && g.client == this && g.query == ArtistsQuery(search, sort, columns)
      ensures g.pages == [] && g.phase == Fetching
    {
      g := new LibrarySearch(this, ArtistsQuery(search, sort, columns));
    }

    /**
     * `get_album`: drains an album search for the artist and album names and returns the
     * first album found, None when there is none, or the error that ended the run. The
     * calls are answered by the exchanges, one each; a run that needs more calls than there
     * are exchanges never finishes, which is a transport failure here.
     */
    method GetAlbum(artistName: string, albumName: string, columns: seq<string>, exchanges: seq<Exchange>)
      returns (r: Result<Option<Json>, Error>, sent: seq<Request>)
      requires Drawable(exchanges)
      ensures r == FirstResult(Drive(PagesOf(exchanges)))
      ensures |sent| == |Drive(PagesOf(exchanges)).tokens|
      ensures forall k | 0 <= k < |sent| ::
        sent[k] == PageRequest(AlbumQuery(artistName, albumName, columns), Drive(PagesOf(exchanges)).tokens[k], State())
    {
      var g := Albums(columns, AlbumCriteria(artistName, albumName));
      var used;
      used, sent := g.Drain(exchanges);
      ghost var all := PagesOf(exchanges);
      assert g.pages == all[..used];
      if g.phase.Fetching? {
        assert all[..used] == all;
      } else {
        Settled(all[..used], all[used..]);
        assert all[..used] + all[used..] == all;
      }
      assert Drive(all) == Progress(g.phase, g.tokens, g.next, g.results);
      if g.phase.Fetching? {
        r := Failure(TransportError);
      } else if g.phase.Failed? {
        r := Failure(g.phase.error);
      } else if g.results == [] {
        r := Success(None);
      } else {
        r := Success(Some(g.results[0]));
      }
    }
  }

  /** The two criteria `get_album` adds to the album search. */
  function AlbumCriteria(artistName: string, albumName: string): seq<SearchCriterion>
  {
    [SearchCriterion("artistName", "EQUALS", Some(artistName)), SearchCriterion("albumName", "EQUALS", Some(albumName))]
  }

  /** The query `get_album` runs. */
  function AlbumQuery(artistName: string, albumName: string, columns: seq<string>): Query
  {
    AlbumsQuery(AlbumCriteria(artistName, albumName), DefaultAlbumSort, columns)
  }

  /**
   * Every page `get_album` posts has the status criterion first, the artist name second and
   * the album name third, and sorts by album name.
   */
  lemma {:induction false} AlbumRequest(artistName: string, albumName: string, columns: seq<string>, token: Json, s: Session)
    ensures var r := PageRequest(AlbumQuery(artistName, albumName, columns), token, s);
      && TripleAt(r, SearchPrefix, 1, SearchCriterion("status", "EQUALS", Some("AVAILABLE")))
      && TripleAt(r, SearchPrefix, 2, SearchCriterion("artistName", "EQUALS", Some(artistName)))
      && TripleAt(r, SearchPrefix, 3, SearchCriterion("albumName", "EQUALS", Some(albumName)))
      && PairAt(r, 1, SortCriterion("sortAlbumName", "ASC"))
  {
    var q := AlbumQuery(artistName, albumName, columns);
    var user := AlbumCriteria(artistName, albumName);
    UserCriteriaPlacement(q, token, s, AlbumSearch, user);
    assert |AlbumSearch| == 1 && AlbumSearch[0] == SearchCriterion("status", "EQUALS", Some("AVAILABLE"));
    assert |user| == 2;
    assert TripleAt(PageRequest(q, token, s), SearchPrefix, 1 + 0 + 1, user[0]);
    assert TripleAt(PageRequest(q, token, s), SearchPrefix, 1 + 1 + 1, user[1]);
    PageRequestLayout(q, token, s);
    assert q.sort == [SortCriterion("sortAlbumName", "ASC")];
  }

  /** No identity key is a `trackIdList` entry. */
  lemma {:induction false} StreamKeysClear(songIds: seq<string>)
    ensures IdentityKeys !! MemberListParams(TrackIdPrefix, songIds).Keys
  {
    MemberUnder(TrackIdPrefix, songIds);
    ClearByInitial("Operation", TrackIdPrefix);
    ClearByInitial("ContentType", TrackIdPrefix);
    ClearByInitial("customerInfo.customerId", TrackIdPrefix);
    ClearByInitial("customerInfo.deviceId", TrackIdPrefix);
    ClearByInitial("customerInfo.deviceType", TrackIdPrefix);
    Outside(IdentityKeys, MemberListParams(TrackIdPrefix, songIds), TrackIdPrefix);
  }

  /** The stream-url body holds the song ids and the five identity fields, nothing overwritten. */
  lemma {:induction false} StreamRequestSize(songIds: seq<string>, s: Session)
    ensures |WithIdentity(MemberListParams(TrackIdPrefix, songIds), StreamOperation, s)| == |songIds| + 5
  {
    var d := MemberListParams(TrackIdPrefix, songIds);
    StreamKeysClear(songIds);
    MemberListLayout(TrackIdPrefix, songIds);
    IdentityKeysCount();
    IdentityMerged(d, StreamOperation, s);
    var r := WithIdentity(d, StreamOperation, s);
    assert |r.Keys| == |d.Keys| + |IdentityKeys|;
  }

  /** Every song id is sent at its index: `_get` never overwrites a `trackIdList` entry. */
  lemma {:induction false} StreamIdsPlaced(songIds: seq<string>, s: Session)
    ensures var r := WithIdentity(MemberListParams(TrackIdPrefix, songIds), StreamOperation, s);
      forall i | 0 <= i < |songIds| :: ItemAt(r, TrackIdPrefix, i + 1, songIds[i])
  {
    var d := MemberListParams(TrackIdPrefix, songIds);
    StreamKeysClear(songIds);
    MemberListLayout(TrackIdPrefix, songIds);
    IdentityMerged(d, StreamOperation, s);
    ItemsKept(WithIdentity(d, StreamOperation, s), d, TrackIdPrefix, songIds);
  }

  /** `[item['url'] for item in items]`: stops at the first item without a url. */
  method CollectUrls(items: seq<Json>) returns (r: Result<seq<Json>, Error>)
    ensures r == Urls(items)
  {
    var urls: seq<Json> := [];
    for i := 0 to |items|
      invariant |urls| == i
      invariant forall j | 0 <= j < i :: UrlOf(items[j]).Success? && urls[j] == UrlOf(items[j]).value
    {
      var url := UrlOf(items[i]);
      if url.Failure? {
        UrlsFirstFailure(items, i);
        return Failure(url.error);
      }
      urls := urls + [url.value];
    }
    assert Urls(items).Success?;
    assert Urls(items).value == urls;
    r := Success(urls);
  }

  /**
   * `_search_library` as a suspended generator: each call to Next resumes it for one page.
   * It remembers the token the next page sends and every item yielded so far; the ghost
   * fields record the pages read and the token each call sent.
   */
  class LibrarySearch {
    const client: Client
    const query: Query
    var phase: Phase
    var next: Json
    var results: seq<Json>
    ghost var pages: seq<Page>
    ghost var tokens: seq<Json>

    /** The generator is where the run over the pages it read leaves it. */
    ghost predicate Valid()
      reads this
    {
      Drive(pages) == Progress(phase, tokens, next, results)
    }

    constructor (client: Client, query: Query)
      ensures this.client == client && this.query == query
      ensures Valid() && pages == [] && phase == Fetching && results == []
    {
      this.client := client;
      this.query := query;
      phase := Fetching;
      next := Str("");
      results := [];
      pages := [];
      tokens := [];
    }

    /**
     * One turn of the `while 1` loop: post the page's body with the current token under the
     * client's session, yield the page's items, then take its token, stopping on a falsy one
     * or on an error.
     */
    method Next(draws: seq<nat>, reply: Response) returns (yielded: seq<Json>, posted: Request)
      requires Valid() && phase.Fetching? && |draws| == 7
      modifies this
      ensures Valid()
      ensures pages == old(pages) + [ReadPage(reply)] && tokens == old(tokens) + [old(next)]
      ensures posted == PageRequest(query, old(next), client.State())
      ensures yielded == ReadPage(reply).items && results == old(results) + yielded
    {
      var data := BuildPage(next);
      var headers, result;
      posted, headers, result := client.Get(SearchOperation, data, draws, reply);
      var page := ReadReply(result);
      Record(page);
      yielded := page.items;
    }

    /** Take in one page: hand out its items, then take its token. */
    method Record(page: Page)
      requires Valid() && phase.Fetching?
      modifies this
      ensures Valid()
      ensures pages == old(pages) + [page] && tokens == old(tokens) + [old(next)]
      ensures results == old(results) + page.items
    {
      DriveStep(pages, page);
      tokens := tokens + [next];
      pages := pages + [page];
      results := results + page.items;
      match page.next
      case Failure(e) =>
        phase := Failed(e);
      case Success(t) =>
        next := t;
        phase := if Truthy(t) then Fetching else Exhausted;
    }

    /** The page's body before `_get`: the fixed parameters updated with the three lists. */
    method BuildPage(token: Json) returns (data: Request)
      ensures data == PageParams(query, token)
    {
      data := PageFixed(query, token);
      var criteria := BuildSearchCriteria(query.search);
      data := data + criteria;
      var selected := BuildMemberList(ColumnsPrefix, query.columns);
      data := data + selected;
      var sorting := BuildSortCriteria(query.sort);
      data := data + sorting;
    }

    /** The loop body after `_get`: navigate, collect the items, read the token. */
    method ReadReply(result: Result<Json, Error>) returns (page: Page)
      ensures page == ReadResult(result)
    {
      if result.Failure? {
        return Page([], Failure(result.error));
      }
      var found := GetPayloadData(result.value, ResultPath);
      if found.Failure? {
        return Page([], Failure(found.error));
      }
      var list := GetPayloadData(found.value, ["searchReturnItemList"]);
      if list.Failure? {
        return Page([], Failure(list.error));
      }
      var items := Elements(list.value);
      if items.None? {
        return Page([], Failure(NotIterable));
      }
      var token := Lookup(found.value, "nextResultsToken");
      if token.None? {
        return Page(items.value, Failure(MissingNextToken));
      }
      return Page(items.value, Success(token.value));
    }

    /**
     * `list(...)` over a fresh generator: resume it once per exchange until it ends or the
     * exchanges run out. The run is then the one over the pages of the exchanges used, a run
     * still going has used every exchange, and call k posted the page body for the k-th
     * token under the client's session.
     */
    method Drain(exchanges: seq<Exchange>) returns (used: nat, posted: seq<Request>)
      requires Valid() && pages == [] && Drawable(exchanges)
      modifies this
      ensures Valid()
      ensures used <= |exchanges| && pages == PagesOf(exchanges)[..used]
      ensures phase.Fetching? ==> used == |exchanges|
      ensures |posted| == used && PostedFor(query, posted, tokens, client.State())
    {
      ghost var session := client.State();
      used, posted := 0, [];
      while used < |exchanges| && phase.Fetching?
        invariant Valid() && used <= |exchanges|
        invariant pages == PagesOf(exchanges)[..used]
        invariant |posted| == used && PostedFor(query, posted, tokens, session)
        decreases |exchanges| - used
      {
        ghost var before, t := tokens, next;
        var _, body := Next(exchanges[used].draws, exchanges[used].reply);
        PagesOfStep(exchanges, used);
        PostedStep(query, posted, before, t, session);
        posted := posted + [body];
        used := used + 1;
      }
    }
  }
}
