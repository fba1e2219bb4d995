/**
 * The paginated library search `_search_library`: the request of each page, how a page's
 * reply is read, and the whole run of calls as a function of the replies the remote gives.
 * The first call sends an empty continuation token; each later call sends the token of the
 * page before; the run ends after the first page whose token is falsy, or at the first error.
 */
module Search {
  import opened Wrappers
  import opened Protocol
  import opened Criteria
  import opened Payload
  import opened Dispatch
  import opened Layout

  /** What one search asks for: the return type and the three positional lists. */
  datatype Query = Query(returnType: string, search: seq<SearchCriterion>, columns: seq<string>, sort: seq<SortCriterion>)

  const PaginateBy: int := 50
  const SearchOperation := "searchLibrary"

  const SongSearch: seq<SearchCriterion> := [
    SearchCriterion("keywords", "LIKE", Some("")),
    SearchCriterion("assetType", "EQUALS", Some("AUDIO")),
    SearchCriterion("status", "EQUALS", Some("AVAILABLE"))]
  const ArtistSearch: seq<SearchCriterion> := [
    SearchCriterion("status", "EQUALS", Some("AVAILABLE")),
    SearchCriterion("trackStatus", "IS_NULL", None)]
  const AlbumSearch: seq<SearchCriterion> := [
    SearchCriterion("status", "EQUALS", Some("AVAILABLE"))]

  const DefaultSongSort: seq<SortCriterion> := [SortCriterion("sortTitle", "ASC")]
  const DefaultArtistSort: seq<SortCriterion> := [SortCriterion("sortArtistName", "ASC")]
  const DefaultAlbumSort: seq<SortCriterion> := [SortCriterion("sortAlbumName", "ASC")]

  /** get_songs, get_albums and get_artists: the fixed criteria first, the caller's after them. */
  function SongsQuery(search: seq<SearchCriterion>, sort: seq<SortCriterion>, columns: seq<string>): Query
  {
    Query("TRACKS", SongSearch + search, columns, sort)
  }

  function AlbumsQuery(search: seq<SearchCriterion>, sort: seq<SortCriterion>, columns: seq<string>): Query
  {
    Query("ALBUMS", AlbumSearch + search, columns, sort)
  }

  function ArtistsQuery(search: seq<SearchCriterion>, sort: seq<SortCriterion>, columns: seq<string>): Query
  {
    Query("ARTISTS", ArtistSearch + search, columns, sort)
  }

  /** The fixed parameters of one page. */
  function PageFixed(q: Query, token: Json): Request
  {
    map[
      "searchReturnType" := Str(q.returnType),
      "albumArtUrlsSizeList.member.1" := Str("MEDIUM"),
      "sortCriteriaList" := Str(""),
      "maxResults" := Num(PaginateBy),
      "nextResultsToken" := token]
  }

  /** The body of one page before `_get` adds the identity fields. */
  function PageParams(q: Query, token: Json): Request
  {
    PageFixed(q, token) + SearchCriteriaParams(SearchPrefix, q.search)
      + MemberListParams(ColumnsPrefix, q.columns) + SortCriteriaParams(q.sort)
  }

  /** The body one page sends. */
  function PageRequest(q: Query, token: Json, s: Session): Request
  {
    WithIdentity(PageParams(q, token), SearchOperation, s)
  }

  /** No fixed or identity key is a positional key of the three lists. */
  lemma FixedKeysClear(q: Query, token: Json)
    ensures forall k | k in PageFixed(q, token) || k in IdentityKeys ::
      Clear(k, SearchPrefix) && Clear(k, ColumnsPrefix) && Clear(k, SortPrefix)
  {
    var k := "albumArtUrlsSizeList.member.1";
    ClearByInitial(k, SearchPrefix);
    ClearByInitial(k, ColumnsPrefix);
    ClearByInitial(k, SortPrefix);
    ClearByInitial("customerInfo.customerId", SearchPrefix);
    ClearByInitial("customerInfo.deviceType", SearchPrefix);
    ClearByInitial("customerInfo.customerId", ColumnsPrefix);
    ClearByInitial("customerInfo.deviceType", ColumnsPrefix);
  }

  lemma FixedCount(q: Query, token: Json)
    ensures |PageFixed(q, token)| == 5
    ensures IdentityKeys !! PageFixed(q, token).Keys
  {
  }

  /** Keys clear of the three lists and absent from the fixed ones are absent from the body. */
  lemma Absent(keys: set<string>, fixed: Request, d: Request, sp: string, cp: string)
    requires forall k | k in d && k !in fixed :: !Clear(k, sp) || !Clear(k, cp) || !Clear(k, SortPrefix)
    requires forall k | k in keys :: Clear(k, sp) && Clear(k, cp) && Clear(k, SortPrefix)
    requires keys !! fixed.Keys
    ensures keys !! d.Keys
  {
  }

  lemma IdentityKeysCount()
    ensures |IdentityKeys| == 5
  {
    assert "customerInfo.customerId"[13] != "customerInfo.deviceType"[13];
  }

  /** The page body before the identity fields: fixed parameters and the three lists intact. */
  lemma {:induction false} PageParamsLayout(q: Query, token: Json)
    ensures var d := PageParams(q, token);
      && |d| == 5 + 3 * |q.search| + |q.columns| + 2 * |q.sort|
      && (forall k | k in PageFixed(q, token) :: k in d && d[k] == PageFixed(q, token)[k])
      && (forall i | 0 <= i < |q.search| :: TripleAt(d, SearchPrefix, i + 1, q.search[i]))
      && (forall i | 0 <= i < |q.columns| :: ItemAt(d, ColumnsPrefix, i + 1, q.columns[i]))
      && (forall i | 0 <= i < |q.sort| :: PairAt(d, i + 1, q.sort[i]))
      && IdentityKeys !! d.Keys
  {
    var fixed := PageFixed(q, token);
    FixedKeysClear(q, token);
    assert SearchPrefix[2] != ColumnsPrefix[2] && SearchPrefix[1] != SortPrefix[1] && ColumnsPrefix[1] != SortPrefix[1];
    Compose(fixed, SearchPrefix, q.search, ColumnsPrefix, q.columns, q.sort, 2, 1, 1);
    FixedCount(q, token);
    Absent(IdentityKeys, fixed, PageParams(q, token), SearchPrefix, ColumnsPrefix);
  }

  /**
   * Adding the identity fields to a body that lacks their keys keeps every entry and adds
   * five: criteria, columns and sort keys stay at their indices.
   */
  lemma {:induction false} IdentityKeeps(d: Request, op: string, s: Session, q: Query)
    requires IdentityKeys !! d.Keys
    requires forall i | 0 <= i < |q.search| :: TripleAt(d, SearchPrefix, i + 1, q.search[i])
    requires forall i | 0 <= i < |q.columns| :: ItemAt(d, ColumnsPrefix, i + 1, q.columns[i])
    requires forall i | 0 <= i < |q.sort| :: PairAt(d, i + 1, q.sort[i])
    ensures var r := WithIdentity(d, op, s);
      && |r| == |d| + 5
      && (forall k | k in d :: k in r && r[k] == d[k])
      && (forall i | 0 <= i < |q.search| :: TripleAt(r, SearchPrefix, i + 1, q.search[i]))
      && (forall i | 0 <= i < |q.columns| :: ItemAt(r, ColumnsPrefix, i + 1, q.columns[i]))
      && (forall i | 0 <= i < |q.sort| :: PairAt(r, i + 1, q.sort[i]))
  {
    IdentityKeysCount();
    IdentityMerged(d, op, s);
    var r := WithIdentity(d, op, s);
    TriplesKept(r, d, SearchPrefix, q.search);
    ItemsKept(r, d, ColumnsPrefix, q.columns);
    PairsKept(r, d, q.sort);
  }

  /**
   * One page's body carries every fixed parameter unchanged (the return type, the album art
   * size MEDIUM, an empty sort list, the page size 50 and the token given) and the operation.
   */
  lemma {:induction false} PageRequestFixed(q: Query, token: Json, s: Session)
    ensures var r := PageRequest(q, token, s);
      && (forall k | k in PageFixed(q, token) :: k in r && r[k] == PageFixed(q, token)[k])
      && r["nextResultsToken"] == token && r["Operation"] == Str(SearchOperation)
  {
    var fixed := PageFixed(q, token);
    var d := PageParams(q, token);
    var r := PageRequest(q, token, s);
    PageParamsLayout(q, token);
    IdentityKeeps(d, SearchOperation, s, q);
    IdentityMerged(d, SearchOperation, s);
    Through(fixed, d, r);
    assert "nextResultsToken" in fixed;
  }

  lemma Through(fixed: Request, d: Request, r: Request)
    requires forall k | k in fixed :: k in d && d[k] == fixed[k]
    requires forall k | k in d :: k in r && r[k] == d[k]
    ensures forall k | k in fixed :: k in r && r[k] == fixed[k]
  {
  }

  /**
   * One page's body holds exactly its five fixed parameters, the five identity fields, and
   * every criterion, column and sort key at its index: nothing is overwritten.
   */
  lemma {:induction false} PageRequestLayout(q: Query, token: Json, s: Session)
    ensures var r := PageRequest(q, token, s);
      && |r| == 10 + 3 * |q.search| + |q.columns| + 2 * |q.sort|
      && (forall i | 0 <= i < |q.search| :: TripleAt(r, SearchPrefix, i + 1, q.search[i]))
      && (forall i | 0 <= i < |q.columns| :: ItemAt(r, ColumnsPrefix, i + 1, q.columns[i]))
      && (forall i | 0 <= i < |q.sort| :: PairAt(r, i + 1, q.sort[i]))
  {
    PageParamsLayout(q, token);
    IdentityKeeps(PageParams(q, token), SearchOperation, s, q);
  }

  /** Criteria placed in a body as one list stay placed as its two parts. */
  lemma {:induction false} SplitPlacement(r: Request, fixed: seq<SearchCriterion>, user: seq<SearchCriterion>)
    requires forall j | 0 <= j < |fixed + user| :: TripleAt(r, SearchPrefix, j + 1, (fixed + user)[j])
    ensures forall j | 0 <= j < |fixed| :: TripleAt(r, SearchPrefix, j + 1, fixed[j])
    ensures forall i | 0 <= i < |user| :: TripleAt(r, SearchPrefix, |fixed| + i + 1, user[i])
  {
    forall j | 0 <= j < |fixed| ensures TripleAt(r, SearchPrefix, j + 1, fixed[j]) {
      assert (fixed + user)[j] == fixed[j];
    }
    forall i | 0 <= i < |user| ensures TripleAt(r, SearchPrefix, |fixed| + i + 1, user[i]) {
      assert (fixed + user)[|fixed| + i] == user[i];
    }
  }

  /**
   * The caller's criteria follow the fixed ones: with the fixed list of get_songs, get_albums
   * or get_artists first, the i-th caller criterion is sent at index |fixed| + i + 1, and the
   * fixed criteria keep indices 1..|fixed|.
   */
  lemma {:induction false} UserCriteriaPlacement(q: Query, token: Json, s: Session,
                                                 fixed: seq<SearchCriterion>, user: seq<SearchCriterion>)
    requires q.search == fixed + user
    ensures forall j | 0 <= j < |fixed| :: TripleAt(PageRequest(q, token, s), SearchPrefix, j + 1, fixed[j])
    ensures forall i | 0 <= i < |user| :: TripleAt(PageRequest(q, token, s), SearchPrefix, |fixed| + i + 1, user[i])
  {
    PageRequestLayout(q, token, s);
    SplitPlacement(PageRequest(q, token, s), fixed, user);
  }

  /** get_artists sends trackStatus IS_NULL second, with an empty attribute value. */
  lemma {:induction false} ArtistCriteriaPlacement(user: seq<SearchCriterion>, sort: seq<SortCriterion>,
                                                   columns: seq<string>, token: Json, s: Session)
    ensures TripleAt(PageRequest(ArtistsQuery(user, sort, columns), token, s), SearchPrefix, 2,
                     SearchCriterion("trackStatus", "IS_NULL", None))
    ensures ValueOrEmpty(SearchCriterion("trackStatus", "IS_NULL", None)) == ""
  {
    var trackStatus := SearchCriterion("trackStatus", "IS_NULL", None);
    UserCriteriaPlacement(ArtistsQuery(user, sort, columns), token, s, ArtistSearch, user);
    assert 1 < |ArtistSearch| && ArtistSearch[1] == trackStatus;
  }

  /** What one page's reply yields: the items, then the next token or the error raised. */
  datatype Page = Page(items: seq<Json>, next: Result<Json, Error>)

  const ResultPath: seq<string> := ["searchLibraryResponse", "searchLibraryResult"]

  /**
   * One turn of the loop after the call: navigate to the result, then to its item list,
   * yield the items, then read the continuation token.
   */
  function ReadResult(result: Result<Json, Error>): (p: Page)
    ensures result.Failure? ==> p == Page([], Failure(result.error))
    ensures p.items != [] && p.next.Failure? ==> p.next.error == MissingNextToken
  {
    match result
    case Failure(e) => Page([], Failure(e))
    case Success(body) =>
      match Navigate(body, ResultPath)
      case Failure(e) => Page([], Failure(e))
      case Success(found) =>
        match Navigate(found, ["searchReturnItemList"])
        case Failure(e) => Page([], Failure(e))
        case Success(list) =>
          match Elements(list)
          case None => Page([], Failure(NotIterable))
          case Some(items) =>
            match Lookup(found, "nextResultsToken")
            case None => Page(items, Failure(MissingNextToken))
            case Some(token) => Page(items, Success(token))
  }

  /** How one reply reads: a rejected call yields nothing and raises its error. */
  function ReadPage(reply: Response): (p: Page)
    ensures Classify(reply).Failure? ==> p == Page([], Failure(Classify(reply).error))
  {
    ReadResult(Classify(reply))
  }

  /**
   * An accepted reply whose result holds an item list and a token gives back exactly those
   * items and that token, whatever other keys the reply carries.
   */
  lemma ReadPageBody(reply: Response, items: seq<Json>, token: Json)
    requires reply.status == 200 && PathPresent(reply.body, ResultPath)
    requires Lookup(ValueAt(reply.body, ResultPath), "searchReturnItemList") == Some(Arr(items))
    requires Lookup(ValueAt(reply.body, ResultPath), "nextResultsToken") == Some(token)
    ensures ReadPage(reply) == Page(items, Success(token))
  {
    var found := ValueAt(reply.body, ResultPath);
    NavigatePresent(reply.body, ResultPath);
    assert PathPresent(found, ["searchReturnItemList"]);
    NavigatePresent(found, ["searchReturnItemList"]);
  }

  /** The same reply without a token still yields its items, then raises. */
  lemma ReadPageNoToken(reply: Response, items: seq<Json>)
    requires reply.status == 200 && PathPresent(reply.body, ResultPath)
    requires Lookup(ValueAt(reply.body, ResultPath), "searchReturnItemList") == Some(Arr(items))
    requires Lookup(ValueAt(reply.body, ResultPath), "nextResultsToken").None?
    ensures ReadPage(reply) == Page(items, Failure(MissingNextToken))
  {
    var found := ValueAt(reply.body, ResultPath);
    NavigatePresent(reply.body, ResultPath);
    assert PathPresent(found, ["searchReturnItemList"]);
    NavigatePresent(found, ["searchReturnItemList"]);
  }

  /**
   * An accepted reply missing a key of `searchLibraryResponse/searchLibraryResult/searchReturnItemList`
   * yields nothing and fails naming the first missing key.
   */
  lemma ReadPageMissing(reply: Response, before: seq<string>, k: string, after: seq<string>)
    requires reply.status == 200
    requires ResultPath + ["searchReturnItemList"] == before + [k] + after
    requires PathPresent(reply.body, before)
    requires ValueAt(reply.body, before).Obj? && k !in ValueAt(reply.body, before).fields
    ensures ReadPage(reply) == Page([], Failure(MissingPayloadKey(k)))
  {
    var full := ResultPath + ["searchReturnItemList"];
    if |before| < |ResultPath| {
      var rest := ResultPath[|before| + 1..];
      assert ResultPath == before + [k] + rest by {
        assert forall i | 0 <= i < |ResultPath| :: ResultPath[i] == full[i];
      }
      FirstMissingKey(reply.body, before, k, rest);
    } else {
      assert before == ResultPath by {
        assert forall i | 0 <= i < |ResultPath| :: before[i] == full[i];
      }
      assert k == "searchReturnItemList" by {
        assert full[|ResultPath|] == k;
      }
      var found := ValueAt(reply.body, ResultPath);
      NavigatePresent(reply.body, ResultPath);
      FirstMissingKey(found, [], k, []);
      assert [] + [k] + [] == ["searchReturnItemList"];
    }
  }

  /** An accepted reply whose item list is not a list yields nothing and fails as not iterable. */
  lemma ReadPageNotIterable(reply: Response, list: Json)
    requires reply.status == 200 && PathPresent(reply.body, ResultPath)
    requires Lookup(ValueAt(reply.body, ResultPath), "searchReturnItemList") == Some(list)
    requires Elements(list).None?
    ensures ReadPage(reply) == Page([], Failure(NotIterable))
  {
    var found := ValueAt(reply.body, ResultPath);
    NavigatePresent(reply.body, ResultPath);
    assert PathPresent(found, ["searchReturnItemList"]);
    NavigatePresent(found, ["searchReturnItemList"]);
  }

  /** The page carries a continuation token that keeps the loop going. */
  predicate Continues(p: Page)
  {
    p.next.Success? && Truthy(p.next.value)
  }

  datatype Phase = Fetching | Exhausted | Failed(error: Error)

  /**
   * The state of a run: whether it goes on, the token sent with each call so far, the token
   * the next call would send, and every item yielded.
   */
  datatype Progress = Progress(phase: Phase, tokens: seq<Json>, next: Json, items: seq<Json>)

  const Start := Progress(Fetching, [], Str(""), [])

  /** One call, whose reply reads as the given page. */
  function Advance(p: Progress, page: Page): Progress
    requires p.phase.Fetching?
  {
    var tokens := p.tokens + [p.next];
    var items := p.items + page.items;
    match page.next
    case Failure(e) => Progress(Failed(e), tokens, p.next, items)
    case Success(t) => Progress(if Truthy(t) then Fetching else Exhausted, tokens, t, items)
  }

  /**
   * The run when the remote's replies read as these pages, one per call while the run goes
   * on; pages beyond the end of the run are never asked for.
   */
  function Drive(pages: seq<Page>): Progress
    decreases |pages|
  {
    if pages == [] then Start
    else
      var p := Drive(pages[..|pages| - 1]);
      if p.phase.Fetching? then Advance(p, pages[|pages| - 1]) else p
  }

  /** One more call advances a run that goes on, by the page its reply reads as. */
  lemma DriveStep(pages: seq<Page>, page: Page)
    requires Drive(pages).phase.Fetching?
    ensures Drive(pages + [page]) == Advance(Drive(pages), page)
  {
    assert (pages + [page])[..|pages|] == pages;
  }

  /** Call k of a run posted the page body for the run's k-th token, all under one session. */
  ghost predicate PostedFor(q: Query, posted: seq<Request>, tokens: seq<Json>, s: Session)
  {
    |posted| == |tokens| && forall k | 0 <= k < |tokens| :: posted[k] == PageRequest(q, tokens[k], s)
  }

  /** One more call posts the body for one more token. */
  lemma PostedStep(q: Query, posted: seq<Request>, tokens: seq<Json>, t: Json, s: Session)
    requires PostedFor(q, posted, tokens, s)
    ensures PostedFor(q, posted + [PageRequest(q, t, s)], tokens + [t], s)
  {
  }

  /** How the replies of a sequence of calls read, page by page. */
  function PagesOf(exchanges: seq<Exchange>): (pages: seq<Page>)
    ensures |pages| == |exchanges| && forall i | 0 <= i < |exchanges| :: pages[i] == ReadPage(exchanges[i].reply)
  {
    seq(|exchanges|, i requires 0 <= i < |exchanges| => ReadPage(exchanges[i].reply))
  }

  /** The pages of the first n + 1 calls are those of the first n and the page of call n. */
  lemma PagesOfStep(exchanges: seq<Exchange>, n: nat)
    requires n < |exchanges|
    ensures PagesOf(exchanges)[..n + 1] == PagesOf(exchanges)[..n] + [ReadPage(exchanges[n].reply)]
  {
    var pages := PagesOf(exchanges);
    assert pages[..n + 1] == pages[..n] + [pages[n]];
  }

  /** The items of the first n pages, in order. */
  function Collected(pages: seq<Page>, n: nat): seq<Json>
    requires n <= |pages|
  {
    if n == 0 then [] else Collected(pages, n - 1) + pages[n - 1].items
  }

  /** Every page before the n-th carried a token that kept the run going. */
  predicate Live(pages: seq<Page>, n: nat)
    requires n <= |pages|
  {
    forall j | 0 <= j < n :: Continues(pages[j])
  }

  lemma {:induction false} CollectedPrefix(pages: seq<Page>, more: seq<Page>, n: nat)
    requires n <= |pages|
    ensures Collected(pages + more, n) == Collected(pages, n)
  {
    if n > 0 {
      CollectedPrefix(pages, more, n - 1);
      assert (pages + more)[n - 1] == pages[n - 1];
    }
  }

  /** What the run looks like after any pages: the facts the lemmas below draw on. */
  predicate Shaped(pages: seq<Page>, p: Progress)
  {
    var n := |p.tokens|;
    && n <= |pages|
    && (pages != [] ==> n >= 1 && p.tokens[0] == Str(""))
    && Live(pages, if p.phase.Fetching? || n == 0 then n else n - 1)
    && (p.phase.Fetching? ==> n == |pages|)
    && (forall k | 0 <= k < n - 1 :: pages[k].next == Success(p.tokens[k + 1]))
    && (n >= 1 && pages[n - 1].next.Success? ==> p.next == pages[n - 1].next.value)
    && (n == 0 ==> p.next == Str("") && p.phase.Fetching?)
    && (p.phase.Exhausted? ==> n >= 1 && pages[n - 1].next.Success? && !Truthy(p.next))
    && (p.phase.Failed? ==> n >= 1 && pages[n - 1].next == Failure(p.phase.error))
    && p.items == Collected(pages, n)
  }

  lemma {:induction false} DriveShaped(pages: seq<Page>)
    ensures Shaped(pages, Drive(pages))
    decreases |pages|
  {
    if pages != [] {
      var init := pages[..|pages| - 1];
      var last := pages[|pages| - 1];
      DriveShaped(init);
      assert pages == init + [last];
      if Drive(init).phase.Fetching? {
        DriveStep(init, last);
        ShapedAdvance(init, last, Drive(init));
      } else {
        assert pages[..|pages| - 1] == init;
        ShapedStays(init, last, Drive(init));
      }
    }
  }

  /** A call of a run that goes on keeps its shape. */
  lemma ShapedAdvance(init: seq<Page>, last: Page, p0: Progress)
    requires Shaped(init, p0) && p0.phase.Fetching?
    ensures Shaped(init + [last], Advance(p0, last))
  {
    var pages := init + [last];
    var n0 := |p0.tokens|;
    var p := Advance(p0, last);
    assert forall j | 0 <= j < |init| :: pages[j] == init[j];
    assert pages[n0] == last;
    CollectedPrefix(init, [last], n0);
    assert Collected(pages, n0 + 1) == Collected(pages, n0) + last.items;
    if n0 >= 1 {
      assert Continues(init[n0 - 1]);
    }
  }

  /** A run that has ended keeps its shape whatever pages follow. */
  lemma ShapedStays(init: seq<Page>, last: Page, p: Progress)
    requires Shaped(init, p) && !p.phase.Fetching?
    ensures Shaped(init + [last], p)
  {
    var pages := init + [last];
    assert forall j | 0 <= j < |init| :: pages[j] == init[j];
    CollectedPrefix(init, [last], |p.tokens|);
  }

  /** The first call sends an empty token. */
  lemma FirstToken(pages: seq<Page>)
    requires pages != []
    ensures |Drive(pages).tokens| >= 1 && Drive(pages).tokens[0] == Str("")
  {
    DriveShaped(pages);
  }

  /** Each later call sends the token of the page before it, a truthy one. */
  lemma TokenChain(pages: seq<Page>, k: nat)
    requires k + 1 < |Drive(pages).tokens|
    ensures k < |pages| && pages[k].next == Success(Drive(pages).tokens[k + 1])
    ensures Truthy(Drive(pages).tokens[k + 1])
  {
    DriveShaped(pages);
  }

  /** No more calls than pages, and the items yielded are the pages' items in order. */
  lemma ItemsInOrder(pages: seq<Page>)
    ensures |Drive(pages).tokens| <= |pages|
    ensures Drive(pages).items == Collected(pages, |Drive(pages).tokens|)
  {
    DriveShaped(pages);
  }

  /** While every page continues, one call is made per page. */
  lemma {:induction false} KeepsFetching(pages: seq<Page>)
    requires Live(pages, |pages|)
    ensures Drive(pages).phase == Fetching && |Drive(pages).tokens| == |pages|
  {
    DriveShaped(pages);
  }

  /**
   * The run stops at the first page whose token is falsy: with pages 0..k-1 continuing and
   * page k's token falsy, exactly k + 1 calls are made and the run is exhausted.
   */
  lemma {:induction false} StopsAtFalsyToken(pages: seq<Page>, k: nat)
    requires k < |pages| && Live(pages, k)
    requires pages[k].next.Success? && !Truthy(pages[k].next.value)
    ensures Drive(pages).phase == Exhausted
    ensures |Drive(pages).tokens| == k + 1
    ensures Drive(pages).items == Collected(pages, k + 1)
  {
    DriveShaped(pages);
  }

  /** An error in page k ends the run there, after k + 1 calls, raising that error. */
  lemma {:induction false} StopsAtError(pages: seq<Page>, k: nat, e: Error)
    requires k < |pages| && Live(pages, k)
    requires pages[k].next == Failure(e)
    ensures Drive(pages).phase == Failed(e)
    ensures |Drive(pages).tokens| == k + 1
  {
    DriveShaped(pages);
  }

  /** Once the run has ended, later pages are never asked for. */
  lemma {:induction false} Settled(pages: seq<Page>, more: seq<Page>)
    requires !Drive(pages).phase.Fetching?
    ensures Drive(pages + more) == Drive(pages)
    decreases |more|
  {
    if more == [] {
      assert pages + more == pages;
    } else {
      var init := more[..|more| - 1];
      Settled(pages, init);
      var all := pages + more;
      assert all[..|all| - 1] == pages + init;
      assert Drive(all) == Drive(pages + init);
    }
  }

  /**
   * Three pages with tokens t1, t2 and "" (say of 50, 50 and 7 items): three calls sending
   * "", t1 and t2, all their items in order, and no fourth call whatever pages follow.
   */
  lemma {:induction false} ThreePages(pages: seq<Page>, a: seq<Json>, b: seq<Json>, c: seq<Json>, t1: string, t2: string)
    requires |pages| >= 3 && t1 != "" && t2 != ""
    requires pages[0] == Page(a, Success(Str(t1)))
    requires pages[1] == Page(b, Success(Str(t2)))
    requires pages[2] == Page(c, Success(Str("")))
    ensures Drive(pages).phase == Exhausted
    ensures Drive(pages).tokens == [Str(""), Str(t1), Str(t2)]
    ensures Drive(pages).items == a + b + c
  {
    assert Live(pages, 2);
    StopsAtFalsyToken(pages, 2);
    FirstToken(pages);
    TokenChain(pages, 0);
    TokenChain(pages, 1);
    assert Collected(pages, 1) == a;
    assert Collected(pages, 2) == a + b;
  }

  /**
   * get_album's answer from the run: the first item when it ended with results, None when it
   * ended with none, the error when it failed; a run the replies leave unfinished is a
   * transport failure.
   */
  function FirstResult(p: Progress): (r: Result<Option<Json>, Error>)
    ensures r.Success? <==> p.phase == Exhausted
    ensures r.Success? ==> (r.value.Some? <==> p.items != [])
    ensures r.Success? && r.value.Some? ==> r.value.value == p.items[0]
    ensures p.phase.Failed? ==> r == Failure(p.phase.error)
  {
    match p.phase
    case Failed(e) => Failure(e)
    case Fetching => Failure(TransportError)
    case Exhausted => Success(if p.items == [] then None else Some(p.items[0]))
  }

  /** The items collected begin with the first page's. */
  lemma {:induction false} CollectedStarts(pages: seq<Page>, n: nat)
    requires 1 <= n <= |pages|
    ensures |pages[0].items| <= |Collected(pages, n)|
    ensures Collected(pages, n)[..|pages[0].items|] == pages[0].items
  {
    if n == 1 {
      assert Collected(pages, 1) == pages[0].items;
    } else {
      CollectedStarts(pages, n - 1);
      var c := Collected(pages, n - 1);
      assert Collected(pages, n) == c + pages[n - 1].items;
      assert (c + pages[n - 1].items)[..|pages[0].items|] == c[..|pages[0].items|];
    }
  }

  /**
   * With more than one result the first is returned: once the run is exhausted and the first
   * page held items, the answer is the first page's first item, whatever later pages hold.
   */
  lemma FirstOfFirstPage(pages: seq<Page>)
    requires pages != [] && pages[0].items != []
    requires Drive(pages).phase == Exhausted
    ensures FirstResult(Drive(pages)) == Success(Some(pages[0].items[0]))
  {
    DriveShaped(pages);
    CollectedStarts(pages, |Drive(pages).tokens|);
    var c := Collected(pages, |Drive(pages).tokens|);
    assert c[0] == c[..|pages[0].items|][0];
  }
}
