/**
 * The criteria encoder: ordered search predicates, sort keys and column names flattened into
 * positional wire parameters `<prefix>.member.<i>[.<field>]`, with i counted from 1.
 */
module Criteria {
  import opened Wrappers
  import opened Protocol
  import opened Numerals

  /**
   * One search predicate. The source writes it as a tuple of two or three strings; a
   * two-element tuple such as ('trackStatus', 'IS_NULL') has no attributeValue.
   */
  datatype SearchCriterion = SearchCriterion(attributeName: string, comparisonType: string, attributeValue: Option<string>)

  /** One sort key: (sortColumn, sortType). */
  datatype SortCriterion = SortCriterion(column: string, direction: string)

  const AttributeName := ".attributeName"
  const ComparisonType := ".comparisonType"
  const AttributeValue := ".attributeValue"
  const SortColumn := ".sortColumn"
  const SortType := ".sortType"

  const SearchFields: set<string> := {AttributeName, ComparisonType, AttributeValue}
  const SortFields: set<string> := {SortColumn, SortType}

  /** The prefixes the client uses: search criteria by default, the column list, the sort list. */
  const SearchPrefix := "searchCriteria"
  const ColumnsPrefix := "selectedColumns"
  const SortPrefix := "sortCriteriaList"

  /** `'%s.member.%d' % (prefix, n)` */
  function Member(prefix: string, n: nat): string
  {
    prefix + ".member." + Show(n, 10)
  }

  /** Reads index and field suffix back out of a key `<prefix>.member.<n><suffix>`. */
  function ParseMember(prefix: string, key: string): Option<(nat, string)>
  {
    var head := prefix + ".member.";
    if !StartsWith(key, head) then None
    else
      var rest := key[|head|..];
      var run := DigitRun(rest);
      if run == 0 then None else Some((Value(rest[..run], 10), rest[run..]))
  }

  /** A field suffix: empty, or starting with something other than a digit. */
  predicate IsSuffix(s: string)
  {
    s == [] || !IsDigit(s[0], 10)
  }

  /** Parsing a key gives back the index and the suffix it was built from. */
  lemma ParseMemberKey(prefix: string, n: nat, suffix: string)
    requires IsSuffix(suffix)
    ensures ParseMember(prefix, Member(prefix, n) + suffix) == Some((n, suffix))
  {
    var head := prefix + ".member.";
    var d := Show(n, 10);
    var key := Member(prefix, n) + suffix;
    assert key == head + (d + suffix);
    assert key[..|head|] == head;
    assert key[|head|..] == d + suffix;
    DigitRunConcat(d, suffix);
    assert (d + suffix)[..|d|] == d;
    assert (d + suffix)[|d|..] == suffix;
    ValueOfShow(n, 10);
  }

  /** The key parses as index 1..n with a suffix from the given set. */
  predicate KeyWithin(prefix: string, key: string, n: nat, suffixes: set<string>)
  {
    match ParseMember(prefix, key)
    case Some((i, f)) => 1 <= i <= n && f in suffixes
    case None => false
  }

  /** Every positional key starts with `<prefix>.member.`. */
  lemma KeyWithinHead(prefix: string, key: string, n: nat, suffixes: set<string>)
    requires KeyWithin(prefix, key, n, suffixes)
    ensures StartsWith(key, prefix + ".member.")
  {
  }

  function ValueOrEmpty(c: SearchCriterion): string
  {
    match c.attributeValue
    case None => ""
    case Some(v) => v
  }

  /** The parameters _build_search_criteria returns: three per criterion. */
  function SearchCriteriaParams(prefix: string, search: seq<SearchCriterion>): Request
    decreases |search|
  {
    if search == [] then map[]
    else
      var n := |search|;
      var c := search[n - 1];
      var key := Member(prefix, n);
      SearchCriteriaParams(prefix, search[..n - 1])
        [key + AttributeName := Str(c.attributeName)]
        [key + ComparisonType := Str(c.comparisonType)]
        [key + AttributeValue := Str(ValueOrEmpty(c))]
  }

  /** The parameters _build_sort_criteria returns: two per sort key. */
  function SortCriteriaParams(sort: seq<SortCriterion>): Request
    decreases |sort|
  {
    if sort == [] then map[]
    else
      var n := |sort|;
      var key := Member(SortPrefix, n);
      SortCriteriaParams(sort[..n - 1])
        [key + SortColumn := Str(sort[n - 1].column)]
        [key + SortType := Str(sort[n - 1].direction)]
  }

  /** One parameter per element: _build_selected_columns, and the track ids of get_song_stream_urls. */
  function MemberListParams(prefix: string, items: seq<string>): Request
    decreases |items|
  {
    if items == [] then map[]
    else
      var n := |items|;
      MemberListParams(prefix, items[..n - 1])[Member(prefix, n) := Str(items[n - 1])]
  }

  /** A key built for index n is not among keys bounded by n - 1. */
  lemma FreshKey(prefix: string, m: Request, n: nat, suffixes: set<string>, suffix: string)
    requires n >= 1 && IsSuffix(suffix)
    requires forall k | k in m :: KeyWithin(prefix, k, n - 1, suffixes)
    ensures Member(prefix, n) + suffix !in m
  {
    ParseMemberKey(prefix, n, suffix);
    forall k | k in m ensures k != Member(prefix, n) + suffix {
      assert KeyWithin(prefix, k, n - 1, suffixes);
    }
  }

  /** Keys for different (index, suffix) pairs are different strings. */
  lemma DistinctKeys(prefix: string, n1: nat, s1: string, n2: nat, s2: string)
    requires IsSuffix(s1) && IsSuffix(s2)
    requires n1 != n2 || s1 != s2
    ensures Member(prefix, n1) + s1 != Member(prefix, n2) + s2
  {
    ParseMemberKey(prefix, n1, s1);
    ParseMemberKey(prefix, n2, s2);
  }

  /** The three parameters of criterion c at index n are present in r. */
  predicate TripleAt(r: Request, prefix: string, n: nat, c: SearchCriterion)
  {
    var key := Member(prefix, n);
    && key + AttributeName in r && r[key + AttributeName] == Str(c.attributeName)
    && key + ComparisonType in r && r[key + ComparisonType] == Str(c.comparisonType)
    && key + AttributeValue in r && r[key + AttributeValue] == Str(ValueOrEmpty(c))
  }

  /** The two parameters of sort key s at index n are present in r. */
  predicate PairAt(r: Request, n: nat, s: SortCriterion)
  {
    var key := Member(SortPrefix, n);
    && key + SortColumn in r && r[key + SortColumn] == Str(s.column)
    && key + SortType in r && r[key + SortType] == Str(s.direction)
  }

  /** Every key of the search parameters is a positional key with index 1..N and a search field. */
  lemma {:induction false} SearchKeysWithin(prefix: string, search: seq<SearchCriterion>)
    ensures forall k | k in SearchCriteriaParams(prefix, search) :: KeyWithin(prefix, k, |search|, SearchFields)
    decreases |search|
  {
    if search != [] {
      var n := |search|;
      SearchKeysWithin(prefix, search[..n - 1]);
      var key := Member(prefix, n);
      ParseMemberKey(prefix, n, AttributeName);
      ParseMemberKey(prefix, n, ComparisonType);
      ParseMemberKey(prefix, n, AttributeValue);
      var m := SearchCriteriaParams(prefix, search[..n - 1]);
      forall k | k in SearchCriteriaParams(prefix, search) ensures KeyWithin(prefix, k, n, SearchFields) {
        if k in m {
          assert KeyWithin(prefix, k, n - 1, SearchFields);
        }
      }
    }
  }

  /** N criteria give exactly 3N parameters. */
  lemma {:induction false} SearchCount(prefix: string, search: seq<SearchCriterion>)
    ensures |SearchCriteriaParams(prefix, search)| == 3 * |search|
    decreases |search|
  {
    if search != [] {
      var n := |search|;
      var init := search[..n - 1];
      SearchCount(prefix, init);
      SearchKeysWithin(prefix, init);
      var m := SearchCriteriaParams(prefix, init);
      FreshKey(prefix, m, n, SearchFields, AttributeName);
      FreshKey(prefix, m, n, SearchFields, ComparisonType);
      FreshKey(prefix, m, n, SearchFields, AttributeValue);
      DistinctKeys(prefix, n, AttributeName, n, ComparisonType);
      DistinctKeys(prefix, n, AttributeName, n, AttributeValue);
      DistinctKeys(prefix, n, ComparisonType, n, AttributeValue);
    }
  }

  /** Writing the parameters of index n leaves the triple of another index i intact. */
  lemma TripleKept(r: Request, prefix: string, i: nat, c: SearchCriterion, n: nat, d: SearchCriterion)
    requires i != n && TripleAt(r, prefix, i, c)
    ensures TripleAt(r[Member(prefix, n) + AttributeName := Str(d.attributeName)]
                      [Member(prefix, n) + ComparisonType := Str(d.comparisonType)]
                      [Member(prefix, n) + AttributeValue := Str(ValueOrEmpty(d))], prefix, i, c)
  {
    var fields := [AttributeName, ComparisonType, AttributeValue];
    forall a, b | 0 <= a < 3 && 0 <= b < 3
      ensures Member(prefix, i) + fields[a] != Member(prefix, n) + fields[b]
    {
      DistinctKeys(prefix, i, fields[a], n, fields[b]);
    }
    assert Member(prefix, i) + fields[0] != Member(prefix, n) + fields[0];
    assert Member(prefix, i) + fields[1] != Member(prefix, n) + fields[1];
    assert Member(prefix, i) + fields[2] != Member(prefix, n) + fields[2];
  }

  /** The parameters just written for index n hold criterion d. */
  lemma TripleWritten(r: Request, prefix: string, n: nat, d: SearchCriterion)
    ensures TripleAt(r[Member(prefix, n) + AttributeName := Str(d.attributeName)]
                      [Member(prefix, n) + ComparisonType := Str(d.comparisonType)]
                      [Member(prefix, n) + AttributeValue := Str(ValueOrEmpty(d))], prefix, n, d)
  {
    DistinctKeys(prefix, n, AttributeName, n, ComparisonType);
    DistinctKeys(prefix, n, AttributeName, n, AttributeValue);
    DistinctKeys(prefix, n, ComparisonType, n, AttributeValue);
  }

  /** The i-th triple holds the i-th criterion; a criterion without a value has "" there. */
  lemma {:induction false} SearchTriples(prefix: string, search: seq<SearchCriterion>)
    ensures forall i | 0 <= i < |search| :: TripleAt(SearchCriteriaParams(prefix, search), prefix, i + 1, search[i])
    decreases |search|
  {
    if search != [] {
      var n := |search|;
      var init, d := search[..n - 1], search[n - 1];
      SearchTriples(prefix, init);
      var m := SearchCriteriaParams(prefix, init);
      var key := Member(prefix, n);
      var r := m[key + AttributeName := Str(d.attributeName)][key + ComparisonType := Str(d.comparisonType)]
        [key + AttributeValue := Str(ValueOrEmpty(d))];
      assert SearchCriteriaParams(prefix, search) == r;
      TripleWritten(m, prefix, n, d);
      forall i | 0 <= i < n - 1 ensures TripleAt(r, prefix, i + 1, search[i]) {
        assert search[i] == init[i];
        TripleKept(m, prefix, i + 1, init[i], n, d);
      }
    }
  }

  /**
   * N criteria give exactly 3N keys: the i-th triple holds the i-th criterion, a criterion
   * without a value gets the empty string, and no other key is present.
   */
  lemma SearchCriteriaLayout(prefix: string, search: seq<SearchCriterion>)
    ensures |SearchCriteriaParams(prefix, search)| == 3 * |search|
    ensures forall i | 0 <= i < |search| :: TripleAt(SearchCriteriaParams(prefix, search), prefix, i + 1, search[i])
    ensures forall k | k in SearchCriteriaParams(prefix, search) :: KeyWithin(prefix, k, |search|, SearchFields)
  {
    SearchCount(prefix, search);
    SearchTriples(prefix, search);
    SearchKeysWithin(prefix, search);
  }

  /** Every key of the sort parameters is a positional key with index 1..N and a sort field. */
  lemma {:induction false} SortKeysWithin(sort: seq<SortCriterion>)
    ensures forall k | k in SortCriteriaParams(sort) :: KeyWithin(SortPrefix, k, |sort|, SortFields)
    decreases |sort|
  {
    if sort != [] {
      var n := |sort|;
      SortKeysWithin(sort[..n - 1]);
      ParseMemberKey(SortPrefix, n, SortColumn);
      ParseMemberKey(SortPrefix, n, SortType);
      var m := SortCriteriaParams(sort[..n - 1]);
      forall k | k in SortCriteriaParams(sort) ensures KeyWithin(SortPrefix, k, n, SortFields) {
        if k in m {
          assert KeyWithin(SortPrefix, k, n - 1, SortFields);
        }
      }
    }
  }

  /** N sort keys give exactly 2N parameters. */
  lemma {:induction false} SortCount(sort: seq<SortCriterion>)
    ensures |SortCriteriaParams(sort)| == 2 * |sort|
    decreases |sort|
  {
    if sort != [] {
      var n := |sort|;
      var init := sort[..n - 1];
      SortCount(init);
      SortKeysWithin(init);
      var m := SortCriteriaParams(init);
      FreshKey(SortPrefix, m, n, SortFields, SortColumn);
      FreshKey(SortPrefix, m, n, SortFields, SortType);
      DistinctKeys(SortPrefix, n, SortColumn, n, SortType);
    }
  }

  /** Writing the pair of index n leaves the pair of another index i intact. */
  lemma PairKept(r: Request, i: nat, s: SortCriterion, n: nat, t: SortCriterion)
    requires i != n && PairAt(r, i, s)
    ensures PairAt(r[Member(SortPrefix, n) + SortColumn := Str(t.column)]
                    [Member(SortPrefix, n) + SortType := Str(t.direction)], i, s)
  {
    DistinctKeys(SortPrefix, i, SortColumn, n, SortColumn);
    DistinctKeys(SortPrefix, i, SortColumn, n, SortType);
    DistinctKeys(SortPrefix, i, SortType, n, SortColumn);
    DistinctKeys(SortPrefix, i, SortType, n, SortType);
  }

  lemma PairWritten(r: Request, n: nat, t: SortCriterion)
    ensures PairAt(r[Member(SortPrefix, n) + SortColumn := Str(t.column)]
                    [Member(SortPrefix, n) + SortType := Str(t.direction)], n, t)
  {
    DistinctKeys(SortPrefix, n, SortColumn, n, SortType);
  }

  /** The i-th pair holds the i-th sort key: index 1 is the first input. */
  lemma {:induction false} SortPairs(sort: seq<SortCriterion>)
    ensures forall i | 0 <= i < |sort| :: PairAt(SortCriteriaParams(sort), i + 1, sort[i])
    decreases |sort|
  {
    if sort != [] {
      var n := |sort|;
      var init, t := sort[..n - 1], sort[n - 1];
      SortPairs(init);
      var m := SortCriteriaParams(init);
      var key := Member(SortPrefix, n);
      var r := m[key + SortColumn := Str(t.column)][key + SortType := Str(t.direction)];
      assert SortCriteriaParams(sort) == r;
      PairWritten(m, n, t);
      forall i | 0 <= i < n - 1 ensures PairAt(r, i + 1, sort[i]) {
        assert sort[i] == init[i];
        PairKept(m, i + 1, init[i], n, t);
      }
    }
  }

  /** N sort keys give exactly 2N keys, the i-th pair holding the i-th sort key, without gaps. */
  lemma SortCriteriaLayout(sort: seq<SortCriterion>)
    ensures |SortCriteriaParams(sort)| == 2 * |sort|
    ensures forall i | 0 <= i < |sort| :: PairAt(SortCriteriaParams(sort), i + 1, sort[i])
    ensures forall k | k in SortCriteriaParams(sort) :: KeyWithin(SortPrefix, k, |sort|, SortFields)
  {
    SortCount(sort);
    SortPairs(sort);
    SortKeysWithin(sort);
  }

  /** Every key of a member list is `<prefix>.member.<i>` for some i in 1..N. */
  lemma {:induction false} MemberKeysWithin(prefix: string, items: seq<string>)
    ensures forall k | k in MemberListParams(prefix, items) :: KeyWithin(prefix, k, |items|, {""})
    decreases |items|
  {
    if items != [] {
      var n := |items|;
      MemberKeysWithin(prefix, items[..n - 1]);
      ParseMemberKey(prefix, n, "");
      assert Member(prefix, n) + "" == Member(prefix, n);
      var m := MemberListParams(prefix, items[..n - 1]);
      forall k | k in MemberListParams(prefix, items) ensures KeyWithin(prefix, k, n, {""}) {
        if k in m {
          assert KeyWithin(prefix, k, n - 1, {""});
        }
      }
    }
  }

  /** Element i of a member list sits at `<prefix>.member.<i + 1>`. */
  predicate ItemAt(r: Request, prefix: string, n: nat, item: string)
  {
    Member(prefix, n) in r && r[Member(prefix, n)] == Str(item)
  }

  /** N elements give exactly N parameters, duplicates included. */
  lemma {:induction false} MemberCount(prefix: string, items: seq<string>)
    ensures |MemberListParams(prefix, items)| == |items|
    decreases |items|
  {
    if items != [] {
      var n := |items|;
      var init := items[..n - 1];
      MemberCount(prefix, init);
      MemberKeysWithin(prefix, init);
      FreshKey(prefix, MemberListParams(prefix, init), n, {""}, "");
      assert Member(prefix, n) + "" == Member(prefix, n);
    }
  }

  /** The i-th key holds the i-th element. */
  lemma {:induction false} MemberItems(prefix: string, items: seq<string>)
    ensures forall i | 0 <= i < |items| :: ItemAt(MemberListParams(prefix, items), prefix, i + 1, items[i])
    decreases |items|
  {
    if items != [] {
      var n := |items|;
      var init := items[..n - 1];
      MemberItems(prefix, init);
      forall i | 0 <= i < n - 1 ensures ItemAt(MemberListParams(prefix, items), prefix, i + 1, items[i]) {
        assert items[i] == init[i];
        assert ItemAt(MemberListParams(prefix, init), prefix, i + 1, init[i]);
        DistinctKeys(prefix, i + 1, "", n, "");
        assert Member(prefix, i + 1) + "" == Member(prefix, i + 1);
        assert Member(prefix, n) + "" == Member(prefix, n);
      }
    }
  }

  /** N elements give exactly N keys, the i-th holding the i-th element, duplicates included. */
  lemma MemberListLayout(prefix: string, items: seq<string>)
    ensures |MemberListParams(prefix, items)| == |items|
    ensures forall i | 0 <= i < |items| :: ItemAt(MemberListParams(prefix, items), prefix, i + 1, items[i])
    ensures forall k | k in MemberListParams(prefix, items) :: KeyWithin(prefix, k, |items|, {""})
  {
    MemberCount(prefix, items);
    MemberItems(prefix, items);
    MemberKeysWithin(prefix, items);
  }

  /**
   * Criteria placed after a fixed list (get_songs, get_albums, get_artists) are numbered from
   * |fixed| + 1 on: the i-th user criterion sits at index |fixed| + i + 1.
   */
  lemma CriteriaAfterFixed(prefix: string, fixed: seq<SearchCriterion>, user: seq<SearchCriterion>, i: nat)
    requires i < |user|
    ensures TripleAt(SearchCriteriaParams(prefix, fixed + user), prefix, |fixed| + i + 1, user[i])
  {
    SearchTriples(prefix, fixed + user);
    assert (fixed + user)[|fixed| + i] == user[i];
  }

  /** _build_search_criteria: fills a fresh dictionary criterion by criterion. */
  method BuildSearchCriteria(search: seq<SearchCriterion>, keyPrefix: string := SearchPrefix) returns (data: Request)
    ensures data == SearchCriteriaParams(keyPrefix, search)
    ensures |data| == 3 * |search|
    ensures forall i | 0 <= i < |search| :: TripleAt(data, keyPrefix, i + 1, search[i])
  {
    data := map[];
    for i := 0 to |search|
      invariant data == SearchCriteriaParams(keyPrefix, search[..i])
    {
      var item := search[i];
      var key := Member(keyPrefix, i + 1);
      data := data[key + AttributeName := Str(item.attributeName)];
      data := data[key + ComparisonType := Str(item.comparisonType)];
      var value := if item.attributeValue.None? then "" else item.attributeValue.value;
      data := data[key + AttributeValue := Str(value)];
      assert search[..i + 1][..i] == search[..i];
    }
    assert search[..|search|] == search;
    SearchCriteriaLayout(keyPrefix, search);
  }

  /** _build_sort_criteria: fills a fresh dictionary sort key by sort key. */
  method BuildSortCriteria(sort: seq<SortCriterion>) returns (data: Request)
    ensures data == SortCriteriaParams(sort)
    ensures |data| == 2 * |sort|
    ensures forall i | 0 <= i < |sort| :: PairAt(data, i + 1, sort[i])
  {
    data := map[];
    for i := 0 to |sort|
      invariant data == SortCriteriaParams(sort[..i])
    {
      var key := Member(SortPrefix, i + 1);
      data := data[key + SortColumn := Str(sort[i].column)];
      data := data[key + SortType := Str(sort[i].direction)];
      assert sort[..i + 1][..i] == sort[..i];
    }
    assert sort[..|sort|] == sort;
    SortCriteriaLayout(sort);
  }

  /**
   * One key per element under the given prefix: _build_selected_columns uses
   * "selectedColumns", get_song_stream_urls the same loop with "trackIdList".
   */
  method BuildMemberList(prefix: string, items: seq<string>) returns (data: Request)
    ensures data == MemberListParams(prefix, items)
    ensures |data| == |items|
    ensures forall i | 0 <= i < |items| :: ItemAt(data, prefix, i + 1, items[i])
  {
    data := map[];
    for i := 0 to |items|
      invariant data == MemberListParams(prefix, items[..i])
    {
      data := data[Member(prefix, i + 1) := Str(items[i])];
      assert items[..i + 1][..i] == items[..i];
    }
    assert items[..|items|] == items;
    MemberListLayout(prefix, items);
  }
}
