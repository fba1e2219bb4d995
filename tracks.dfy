/**
 * The two one-shot calls: `get_track_list` (the tracks of one album, by disc then track
 * number) and `get_song_stream_urls` (one stream url per track id).
 */
module Tracks {
  import opened Wrappers
  import opened Protocol
  import opened Criteria
  import opened Payload
  import opened Layout

  /** The album fields get_track_list reads. */
  datatype AlbumInfo = AlbumInfo(numTracks: int, sortAlbumArtistName: string, sortAlbumName: string)

  const SelectPrefix := "selectCriteriaList"
  const TrackIdPrefix := "trackIdList"
  const TrackOperation := "selectTrackMetadata"
  const StreamOperation := "getStreamUrls"

  const TrackListPath: seq<string> := ["selectTrackMetadataResponse", "selectTrackMetadataResult", "trackInfoList"]
  const StreamPath: seq<string> := ["getStreamUrlsResponse", "getStreamUrlsResult", "trackStreamUrlList"]

  /** The album's available tracks: the album artist and album name must match. */
  function TrackCriteria(album: AlbumInfo): seq<SearchCriterion>
  {
    [SearchCriterion("status", "EQUALS", Some("AVAILABLE")),
     SearchCriterion("trackStatus", "IS_NULL", None),
     SearchCriterion("sortAlbumArtistName", "EQUALS", Some(album.sortAlbumArtistName)),
     SearchCriterion("sortAlbumName", "EQUALS", Some(album.sortAlbumName))]
  }

  const TrackSort: seq<SortCriterion> := [SortCriterion("discNum", "ASC"), SortCriterion("trackNum", "ASC")]

  /** The fixed parameters: one page of exactly the album's track count, from the start. */
  function TrackFixed(album: AlbumInfo): Request
  {
    map[
      "sortCriteriaList" := Str(""),
      "maxResults" := Num(album.numTracks),
      "nextResultsToken" := Num(0),
      "distinctOnly" := Str("false"),
      "countOnly" := Str("false")]
  }

  /** The body of get_track_list before `_get` adds the identity fields. */
  function TrackListParams(album: AlbumInfo, columns: seq<string>): Request
  {
    TrackFixed(album) + SearchCriteriaParams(SelectPrefix, TrackCriteria(album))
      + MemberListParams(ColumnsPrefix, columns) + SortCriteriaParams(TrackSort)
  }

  lemma TrackFixedClear(album: AlbumInfo)
    ensures |TrackFixed(album)| == 5
    ensures forall k | k in TrackFixed(album) :: Clear(k, SelectPrefix) && Clear(k, ColumnsPrefix) && Clear(k, SortPrefix)
  {
  }

  /**
   * The track-list body holds its five fixed parameters, the four criteria under
   * selectCriteriaList (the album artist third, the album name fourth), every column, and the
   * sort by disc number then track number, nothing overwritten.
   */
  lemma {:induction false} TrackListLayout(album: AlbumInfo, columns: seq<string>)
    ensures var d := TrackListParams(album, columns);
      && |d| == 5 + 12 + |columns| + 4
      && (forall k | k in TrackFixed(album) :: k in d && d[k] == TrackFixed(album)[k])
      && (forall i | 0 <= i < 4 :: TripleAt(d, SelectPrefix, i + 1, TrackCriteria(album)[i]))
      && (forall i | 0 <= i < |columns| :: ItemAt(d, ColumnsPrefix, i + 1, columns[i]))
      && PairAt(d, 1, SortCriterion("discNum", "ASC")) && PairAt(d, 2, SortCriterion("trackNum", "ASC"))
  {
    TrackFixedClear(album);
    assert SelectPrefix[6] != ColumnsPrefix[6] && SelectPrefix[1] != SortPrefix[1] && ColumnsPrefix[1] != SortPrefix[1];
    Compose(TrackFixed(album), SelectPrefix, TrackCriteria(album), ColumnsPrefix, columns, TrackSort, 6, 1, 1);
    assert TrackSort[0] == SortCriterion("discNum", "ASC") && TrackSort[1] == SortCriterion("trackNum", "ASC");
  }

  /** `_get_payload_data`, then iteration of what it found. */
  function ItemList(result: Result<Json, Error>, path: seq<string>): (r: Result<seq<Json>, Error>)
    ensures result.Failure? ==> r == Failure(result.error)
  {
    match result
    case Failure(e) => Failure(e)
    case Success(body) =>
      match Navigate(body, path)
      case Failure(e) => Failure(e)
      case Success(list) =>
        match Elements(list)
        case None => Failure(NotIterable)
        case Some(items) => Success(items)
  }

  /**
   * A reply whose path is present and ends at a list gives back exactly that list's items,
   * whatever other keys the reply carries along the way.
   */
  lemma ItemListPresent(body: Json, path: seq<string>, items: seq<Json>)
    requires PathPresent(body, path) && ValueAt(body, path) == Arr(items)
    ensures ItemList(Success(body), path) == Success(items)
  {
    NavigatePresent(body, path);
  }

  /** A reply whose path is present but ends at a value that is not a list fails as not iterable. */
  lemma ItemListNotIterable(body: Json, path: seq<string>)
    requires PathPresent(body, path) && Elements(ValueAt(body, path)).None?
    ensures ItemList(Success(body), path) == Failure(NotIterable)
  {
    NavigatePresent(body, path);
  }

  /** A reply missing a key of the path fails naming the first missing key. */
  lemma ItemListMissing(body: Json, path: seq<string>, before: seq<string>, k: string, after: seq<string>)
    requires path == before + [k] + after
    requires PathPresent(body, before)
    requires ValueAt(body, before).Obj? && k !in ValueAt(body, before).fields
    ensures ItemList(Success(body), path) == Failure(MissingPayloadKey(k))
  {
    FirstMissingKey(body, before, k, after);
  }

  /** `item['url']` for one item of the stream-url list. */
  function UrlOf(item: Json): (r: Result<Json, Error>)
    ensures r.Success? <==> item.Obj? && "url" in item.fields
    ensures r.Success? ==> r.value == item.fields["url"]
  {
    if !item.Obj? then Failure(NotAMapping("url"))
    else if "url" in item.fields then Success(item.fields["url"])
    else Failure(MissingUrl)
  }

  /** The list comprehension: the urls in order, or the error of the first item without one. */
  function Urls(items: seq<Json>): (r: Result<seq<Json>, Error>)
    ensures r.Success? <==> forall i | 0 <= i < |items| :: UrlOf(items[i]).Success?
    ensures r.Success? ==> |r.value| == |items| && forall i | 0 <= i < |items| :: r.value[i] == UrlOf(items[i]).value
    decreases |items|
  {
    if items == [] then Success([])
    else
      match UrlOf(items[0])
      case Failure(e) => Failure(e)
      case Success(u) =>
        match Urls(items[1..])
        case Failure(e) => Failure(e)
        case Success(rest) => Success([u] + rest)
  }

  /** The error raised is the one of the first item without a url. */
  lemma {:induction false} UrlsFirstFailure(items: seq<Json>, i: nat)
    requires i < |items| && UrlOf(items[i]).Failure?
    requires forall j | 0 <= j < i :: UrlOf(items[j]).Success?
    ensures Urls(items) == Failure(UrlOf(items[i]).error)
    decreases i
  {
    if i > 0 {
      assert UrlOf(items[0]).Success?;
      UrlsFirstFailure(items[1..], i - 1);
    }
  }

  /** The result of get_song_stream_urls from the outcome of its call. */
  function StreamUrls(result: Result<Json, Error>): Result<seq<Json>, Error>
  {
    match ItemList(result, StreamPath)
    case Failure(e) => Failure(e)
    case Success(items) => Urls(items)
  }

  /**
   * A reply whose stream path ends at a list of items, each a mapping with a url, gives
   * one url per item, in order; the reply and the items may carry other keys.
   */
  lemma StreamUrlsPresent(body: Json, items: seq<Json>, urls: seq<Json>)
    requires PathPresent(body, StreamPath) && ValueAt(body, StreamPath) == Arr(items)
    requires |items| == |urls|
    requires forall i | 0 <= i < |items| :: items[i].Obj? && "url" in items[i].fields && items[i].fields["url"] == urls[i]
    ensures StreamUrls(Success(body)) == Success(urls)
  {
    ItemListPresent(body, StreamPath, items);
    assert forall i | 0 <= i < |items| :: UrlOf(items[i]) == Success(urls[i]);
    assert Urls(items).Success?;
    assert Urls(items).value == urls;
  }
}
