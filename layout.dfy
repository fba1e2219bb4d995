/**
 * How the pieces of a request body combine. A request is a dictionary of fixed parameters
 * updated with several positional lists; because every positional key starts with its own
 * `<prefix>.member.`, the updates never overwrite each other, and the body holds every piece
 * intact.
 */
module Layout {
  import opened Protocol
  import opened Criteria

  /** Every key of m is a positional key under prefix. */
  predicate AllUnder(m: Request, prefix: string)
  {
    forall k | k in m :: StartsWith(k, prefix + ".member.")
  }

  /** The key is not a positional key under prefix. */
  predicate Clear(k: string, prefix: string)
  {
    !StartsWith(k, prefix + ".member.")
  }

  /** A key cannot start with two heads that differ at a position both of them have. */
  lemma Apart(k: string, a: string, b: string, i: nat)
    requires i < |a| && i < |b| && a[i] != b[i]
    requires StartsWith(k, a)
    ensures !StartsWith(k, b)
  {
    assert k[i] == k[..|a|][i];
  }

  /** A key whose first character differs from the prefix's is clear of it. */
  lemma ClearByInitial(k: string, prefix: string)
    requires |k| > 0 && |prefix| > 0 && k[0] != prefix[0]
    ensures Clear(k, prefix)
  {
    if StartsWith(k, prefix + ".member.") {
      Apart(k, prefix + ".member.", k, 0);
    }
  }

  /** Positional keys under prefixes that differ at position i never coincide. */
  lemma Disjoint(m1: Request, p1: string, m2: Request, p2: string, i: nat)
    requires AllUnder(m1, p1) && AllUnder(m2, p2)
    requires i < |p1| && i < |p2| && p1[i] != p2[i]
    ensures m1.Keys !! m2.Keys
  {
    forall k | k in m1 ensures k !in m2 {
      Apart(k, p1 + ".member.", p2 + ".member.", i);
    }
  }

  /** Keys clear of a prefix are not among its positional keys. */
  lemma Outside(keys: set<string>, m: Request, prefix: string)
    requires AllUnder(m, prefix)
    requires forall k | k in keys :: Clear(k, prefix)
    ensures keys !! m.Keys
  {
  }

  /** Updating a dictionary with one whose keys it lacks adds their number of entries. */
  lemma UnionSize(a: Request, b: Request)
    requires a.Keys !! b.Keys
    ensures |a + b| == |a| + |b|
  {
    assert (a + b).Keys == a.Keys + b.Keys;
  }

  lemma SearchUnder(prefix: string, search: seq<SearchCriterion>)
    ensures AllUnder(SearchCriteriaParams(prefix, search), prefix)
  {
    SearchKeysWithin(prefix, search);
    forall k | k in SearchCriteriaParams(prefix, search) ensures StartsWith(k, prefix + ".member.") {
      KeyWithinHead(prefix, k, |search|, SearchFields);
    }
  }

  lemma SortUnder(sort: seq<SortCriterion>)
    ensures AllUnder(SortCriteriaParams(sort), SortPrefix)
  {
    SortKeysWithin(sort);
    forall k | k in SortCriteriaParams(sort) ensures StartsWith(k, SortPrefix + ".member.") {
      KeyWithinHead(SortPrefix, k, |sort|, SortFields);
    }
  }

  lemma MemberUnder(prefix: string, items: seq<string>)
    ensures AllUnder(MemberListParams(prefix, items), prefix)
  {
    MemberKeysWithin(prefix, items);
    forall k | k in MemberListParams(prefix, items) ensures StartsWith(k, prefix + ".member.") {
      KeyWithinHead(prefix, k, |items|, {""});
    }
  }

  /** Four dictionaries with pairwise disjoint keys, merged in order: each entry survives. */
  lemma Merge4(f: Request, s: Request, c: Request, t: Request)
    requires f.Keys !! s.Keys && f.Keys !! c.Keys && f.Keys !! t.Keys
    requires s.Keys !! c.Keys && s.Keys !! t.Keys && c.Keys !! t.Keys
    ensures |f + s + c + t| == |f| + |s| + |c| + |t|
    ensures forall k | k in f :: k in f + s + c + t && (f + s + c + t)[k] == f[k]
    ensures forall k | k in s :: k in f + s + c + t && (f + s + c + t)[k] == s[k]
    ensures forall k | k in c :: k in f + s + c + t && (f + s + c + t)[k] == c[k]
    ensures forall k | k in t :: k in f + s + c + t && (f + s + c + t)[k] == t[k]
  {
    Merge4Size(f, s, c, t);
    var fs := f + s;
    var fsc := fs + c;
    LeftKept(f, s);
    LeftKept(fs, c);
    LeftKept(fsc, t);
  }

  lemma Merge4Size(f: Request, s: Request, c: Request, t: Request)
    requires f.Keys !! s.Keys && f.Keys !! c.Keys && f.Keys !! t.Keys
    requires s.Keys !! c.Keys && s.Keys !! t.Keys && c.Keys !! t.Keys
    ensures |f + s + c + t| == |f| + |s| + |c| + |t|
  {
    var fs := f + s;
    var fsc := fs + c;
    UnionSize(f, s);
    UnionSize(fs, c);
    UnionSize(fsc, t);
  }

  /** Updating a dictionary with one whose keys it lacks keeps every entry it had. */
  lemma LeftKept(a: Request, b: Request)
    requires a.Keys !! b.Keys
    ensures forall k | k in a :: k in a + b && (a + b)[k] == a[k]
  {
  }

  /** The pieces' keys are pairwise disjoint when their prefixes differ and the fixed keys are clear. */
  lemma Separate(fixed: Request, s: Request, sp: string, c: Request, cp: string, t: Request, iSC: nat, iST: nat, iCT: nat)
    requires AllUnder(s, sp) && AllUnder(c, cp) && AllUnder(t, SortPrefix)
    requires iSC < |sp| && iSC < |cp| && sp[iSC] != cp[iSC]
    requires iST < |sp| && iST < |SortPrefix| && sp[iST] != SortPrefix[iST]
    requires iCT < |cp| && iCT < |SortPrefix| && cp[iCT] != SortPrefix[iCT]
    requires forall k | k in fixed :: Clear(k, sp) && Clear(k, cp) && Clear(k, SortPrefix)
    ensures fixed.Keys !! s.Keys && fixed.Keys !! c.Keys && fixed.Keys !! t.Keys
    ensures s.Keys !! c.Keys && s.Keys !! t.Keys && c.Keys !! t.Keys
  {
    Disjoint(s, sp, c, cp, iSC);
    Disjoint(s, sp, t, SortPrefix, iST);
    Disjoint(c, cp, t, SortPrefix, iCT);
    Outside(fixed.Keys, s, sp);
    Outside(fixed.Keys, c, cp);
    Outside(fixed.Keys, t, SortPrefix);
  }

  /** Criteria placed in a piece stay placed in a body that keeps the piece's entries. */
  lemma TriplesKept(r: Request, s: Request, prefix: string, search: seq<SearchCriterion>)
    requires forall k | k in s :: k in r && r[k] == s[k]
    requires forall i | 0 <= i < |search| :: TripleAt(s, prefix, i + 1, search[i])
    ensures forall i | 0 <= i < |search| :: TripleAt(r, prefix, i + 1, search[i])
  {
    forall i | 0 <= i < |search| ensures TripleAt(r, prefix, i + 1, search[i]) {
      assert TripleAt(s, prefix, i + 1, search[i]);
    }
  }

  lemma ItemsKept(r: Request, c: Request, prefix: string, items: seq<string>)
    requires forall k | k in c :: k in r && r[k] == c[k]
    requires forall i | 0 <= i < |items| :: ItemAt(c, prefix, i + 1, items[i])
    ensures forall i | 0 <= i < |items| :: ItemAt(r, prefix, i + 1, items[i])
  {
    forall i | 0 <= i < |items| ensures ItemAt(r, prefix, i + 1, items[i]) {
      assert ItemAt(c, prefix, i + 1, items[i]);
    }
  }

  lemma PairsKept(r: Request, t: Request, sort: seq<SortCriterion>)
    requires forall k | k in t :: k in r && r[k] == t[k]
    requires forall i | 0 <= i < |sort| :: PairAt(t, i + 1, sort[i])
    ensures forall i | 0 <= i < |sort| :: PairAt(r, i + 1, sort[i])
  {
    forall i | 0 <= i < |sort| ensures PairAt(r, i + 1, sort[i]) {
      assert PairAt(t, i + 1, sort[i]);
    }
  }

  /** Four pieces with pairwise disjoint keys, each placing its own entries, merged in order. */
  lemma Assemble(fixed: Request, s: Request, sp: string, search: seq<SearchCriterion>, c: Request, cp: string,
                 columns: seq<string>, t: Request, sort: seq<SortCriterion>)
    requires fixed.Keys !! s.Keys && fixed.Keys !! c.Keys && fixed.Keys !! t.Keys
    requires s.Keys !! c.Keys && s.Keys !! t.Keys && c.Keys !! t.Keys
    requires |s| == 3 * |search| && |c| == |columns| && |t| == 2 * |sort|
    requires forall i | 0 <= i < |search| :: TripleAt(s, sp, i + 1, search[i])
    requires forall i | 0 <= i < |columns| :: ItemAt(c, cp, i + 1, columns[i])
    requires forall i | 0 <= i < |sort| :: PairAt(t, i + 1, sort[i])
    ensures var r := fixed + s + c + t;
      && |r| == |fixed| + 3 * |search| + |columns| + 2 * |sort|
      && (forall k | k in fixed :: k in r && r[k] == fixed[k])
      && (forall i | 0 <= i < |search| :: TripleAt(r, sp, i + 1, search[i]))
      && (forall i | 0 <= i < |columns| :: ItemAt(r, cp, i + 1, columns[i]))
      && (forall i | 0 <= i < |sort| :: PairAt(r, i + 1, sort[i]))
  {
    Merge4(fixed, s, c, t);
    var r := fixed + s + c + t;
    TriplesKept(r, s, sp, search);
    ItemsKept(r, c, cp, columns);
    PairsKept(r, t, sort);
  }

  /**
   * Fixed parameters updated with search criteria, a column list and sort keys, whose three
   * prefixes differ pairwise at the given positions and which the fixed keys are clear of:
   * nothing is overwritten, so the body holds every fixed parameter, and every criterion,
   * column and sort key at its index, has exactly |fixed| + 3N + M + 2S entries, and every
   * key it holds beyond the fixed ones is positional.
   */
  lemma {:induction false} Compose(fixed: Request, sp: string, search: seq<SearchCriterion>, cp: string, columns: seq<string>,
                sort: seq<SortCriterion>, iSC: nat, iST: nat, iCT: nat)
    requires iSC < |sp| && iSC < |cp| && sp[iSC] != cp[iSC]
    requires iST < |sp| && iST < |SortPrefix| && sp[iST] != SortPrefix[iST]
    requires iCT < |cp| && iCT < |SortPrefix| && cp[iCT] != SortPrefix[iCT]
    requires forall k | k in fixed :: Clear(k, sp) && Clear(k, cp) && Clear(k, SortPrefix)
    ensures var r := fixed + SearchCriteriaParams(sp, search) + MemberListParams(cp, columns) + SortCriteriaParams(sort);
      && |r| == |fixed| + 3 * |search| + |columns| + 2 * |sort|
      && (forall k | k in fixed :: k in r && r[k] == fixed[k])
      && (forall i | 0 <= i < |search| :: TripleAt(r, sp, i + 1, search[i]))
      && (forall i | 0 <= i < |columns| :: ItemAt(r, cp, i + 1, columns[i]))
      && (forall i | 0 <= i < |sort| :: PairAt(r, i + 1, sort[i]))
      && (forall k | k in r && k !in fixed :: !Clear(k, sp) || !Clear(k, cp) || !Clear(k, SortPrefix))
  {
    var s := SearchCriteriaParams(sp, search);
    var c := MemberListParams(cp, columns);
    var t := SortCriteriaParams(sort);
    SearchUnder(sp, search);
    MemberUnder(cp, columns);
    SortUnder(sort);
    Separate(fixed, s, sp, c, cp, t, iSC, iST, iCT);
    SearchCriteriaLayout(sp, search);
    MemberListLayout(cp, columns);
    SortCriteriaLayout(sort);
    Assemble(fixed, s, sp, search, c, cp, columns, t, sort);
    BeyondFixed(fixed, s, sp, c, cp, t);
  }

  /** Every key of the merged body beyond the fixed ones comes from a positional piece. */
  lemma BeyondFixed(fixed: Request, s: Request, sp: string, c: Request, cp: string, t: Request)
    requires AllUnder(s, sp) && AllUnder(c, cp) && AllUnder(t, SortPrefix)
    ensures forall k | k in fixed + s + c + t && k !in fixed :: !Clear(k, sp) || !Clear(k, cp) || !Clear(k, SortPrefix)
  {
    assert forall k | k in fixed + s + c + t :: k in fixed || k in s || k in c || k in t;
  }
}
