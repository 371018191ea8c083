/** Listing records, the fixed sample data and the search filter that
    MarketMergeContainer applies to it. */
module Listings {
  import opened StringOps

  /** One marketplace listing. Price, image and link are opaque strings. */
  datatype Listing = Listing(
    id: string,
    marketplace: string,
    title: string,
    price: string,
    image: string,
    location: string,
    description: string,
    link: string)

  /** The three hard-coded listings, in their declared order. Their ids are
      distinct, as the grid's card keys require. */
  function SampleResults(): (r: seq<Listing>)
    ensures |r| == 3
    ensures forall i, j :: 0 <= i < j < |r| ==> r[i].id != r[j].id
  {
    [
    Listing("1", "craigslist", "Vintage Bike", "$120",
            "https://via.placeholder.com/180?text=Image", "San Francisco, CA",
            "A classic city vintage bike in good condition.",
            "https://craigslist.org/vintage-bike"),
    Listing("2", "facebook", "Coffee Table", "$60",
            "https://via.placeholder.com/180?text=Image", "Oakland, CA",
            "Modern wood coffee table. Gently used.",
            "https://facebook.com/coffee-table"),
    Listing("3", "nextdoor", "Sofa Couch", "$250",
            "https://via.placeholder.com/180?text=Image", "Berkeley, CA",
            "Comfortable 3-seater, pickup only.",
            "https://nextdoor.com/sofa-couch")
    ]
  }

  /** Every sample location ends in ", CA". */
  lemma SampleLocationsEndInCa()
    ensures forall i :: 0 <= i < |SampleResults()| ==>
              |SampleResults()[i].location| >= 4 &&
              SampleResults()[i].location[|SampleResults()[i].location| - 4..] == ", CA"
  {
  }

  /** The predicate handed to `sampleResults.filter`: an empty query string
      (falsy in JavaScript) does not constrain its field; a non-empty one must
      occur, case-insensitively, in the listing's title or location. */
  predicate Matches(item: Listing, keywords: string, location: string)
  {
    (keywords != "" ==> Includes(Lower(item.title), Lower(keywords))) &&
    (location != "" ==> Includes(Lower(item.location), Lower(location)))
  }

  /** A listing whose location ends in ", CA" matches the location query "ca". */
  lemma EndsInCaMatchesCa(item: Listing)
    requires |item.location| >= 4 && item.location[|item.location| - 4..] == ", CA"
    ensures Matches(item, "", "ca")
  {
    var loc, n := item.location, |item.location|;
    assert loc[n - 2] == loc[n - 4..][2] == 'C';
    assert loc[n - 1] == loc[n - 4..][3] == 'A';
    IncludesLowerAt(loc, "ca", n - 2);
  }

  /** `query` occurs in `text` at some position once both are lower-cased. */
  ghost predicate ContainsIgnoringCase(text: string, query: string)
  {
    exists i: nat :: OccursAt(Lower(text), Lower(query), i)
  }

  lemma IncludesLowerIff(text: string, query: string)
    ensures Includes(Lower(text), Lower(query)) <==> ContainsIgnoringCase(text, query)
  {
    IncludesIff(Lower(text), Lower(query));
  }

  /** A listing matches exactly when each non-empty query string occurs,
      ignoring case, in the field it filters; an empty query string puts no
      constraint on its field. */
  lemma MatchesIff(item: Listing, keywords: string, location: string)
    ensures Matches(item, keywords, location) <==>
              (keywords != "" ==> ContainsIgnoringCase(item.title, keywords)) &&
              (location != "" ==> ContainsIgnoringCase(item.location, location))
  {
    IncludesLowerIff(item.title, keywords);
    IncludesLowerIff(item.location, location);
  }

  /** `items.filter(item => Matches(item, keywords, location))`. */
  function Filter(items: seq<Listing>, keywords: string, location: string): (r: seq<Listing>)
    ensures |r| <= |items|
    ensures forall x :: x in r ==> x in items && Matches(x, keywords, location)
  {
    if items == [] then []
    else if Matches(items[0], keywords, location) then [items[0]] + Filter(items[1..], keywords, location)
    else Filter(items[1..], keywords, location)
  }

  /** The positions `from`, `from + 1`, ... of `items` whose listing matches,
      in increasing order: the reference description of what a filter keeps. */
  function MatchingIndices(items: seq<Listing>, keywords: string, location: string, from: nat): seq<nat>
    requires from <= |items|
    decreases |items| - from
  {
    if from == |items| then []
    else (if Matches(items[from], keywords, location) then [from] else [])
         + MatchingIndices(items, keywords, location, from + 1)
  }

  /** Every position in `idx` lies in `from .. n`, and they increase strictly. */
  ghost predicate IncreasingWithin(idx: seq<nat>, from: nat, n: nat)
  {
    (forall k :: 0 <= k < |idx| ==> from <= idx[k] < n) &&
    (forall k, l :: 0 <= k < l < |idx| ==> idx[k] < idx[l])
  }

  /** `r` is `items` read at the positions `idx`, one by one. */
  ghost predicate ReadAt(r: seq<Listing>, items: seq<Listing>, idx: seq<nat>)
  {
    |r| == |idx| && forall k :: 0 <= k < |idx| ==> idx[k] < |items| && r[k] == items[idx[k]]
  }

  /** `r` is `items` restricted to the strictly increasing positions `idx`. */
  ghost predicate SelectedAt(r: seq<Listing>, items: seq<Listing>, idx: seq<nat>)
  {
    ReadAt(r, items, idx) && IncreasingWithin(idx, 0, |items|)
  }

  lemma {:induction false} MatchingIndicesOrdered(items: seq<Listing>, keywords: string, location: string, from: nat)
    requires from <= |items|
    ensures IncreasingWithin(MatchingIndices(items, keywords, location, from), from, |items|)
    decreases |items| - from
  {
    if from < |items| {
      MatchingIndicesOrdered(items, keywords, location, from + 1);
      var restIdx := MatchingIndices(items, keywords, location, from + 1);
      var idx := MatchingIndices(items, keywords, location, from);
      assert IncreasingWithin(restIdx, from + 1, |items|);
      if Matches(items[from], keywords, location) {
        assert idx == [from] + restIdx;
        forall k, l | 0 <= k < l < |idx| ensures idx[k] < idx[l] {
          assert idx[l] == restIdx[l - 1];
          if k > 0 {
            assert idx[k] == restIdx[k - 1];
          }
        }
      } else {
        assert idx == restIdx;
      }
    }
  }

  /** The positions are exactly the matching ones from `from` on. */
  lemma {:induction false} MatchingIndicesExact(items: seq<Listing>, keywords: string, location: string, from: nat)
    requires from <= |items|
    ensures forall i :: from <= i < |items| ==>
              (i in MatchingIndices(items, keywords, location, from) <==> Matches(items[i], keywords, location))
    decreases |items| - from
  {
    if from < |items| {
      MatchingIndicesOrdered(items, keywords, location, from + 1);
      MatchingIndicesExact(items, keywords, location, from + 1);
      var restIdx := MatchingIndices(items, keywords, location, from + 1);
      var idx := MatchingIndices(items, keywords, location, from);
      assert IncreasingWithin(restIdx, from + 1, |items|);
      assert from !in restIdx;
      if Matches(items[from], keywords, location) {
        assert idx == [from] + restIdx;
      } else {
        assert idx == restIdx;
      }
    }
  }

  /** The suffix from `from` filters to the listings at the matching positions. */
  lemma {:induction false} FilterReadsIndicesFrom(items: seq<Listing>, keywords: string, location: string, from: nat)
    requires from <= |items|
    ensures ReadAt(Filter(items[from..], keywords, location), items, MatchingIndices(items, keywords, location, from))
    decreases |items| - from
  {
    if from < |items| {
      FilterReadsIndicesFrom(items, keywords, location, from + 1);
      var rest := Filter(items[from + 1..], keywords, location);
      var restIdx := MatchingIndices(items, keywords, location, from + 1);
      assert ReadAt(rest, items, restIdx);
      assert items[from..][1..] == items[from + 1..];
      if Matches(items[from], keywords, location) {
        var r := [items[from]] + rest;
        var idx := [from] + restIdx;
        assert Filter(items[from..], keywords, location) == r;
        assert MatchingIndices(items, keywords, location, from) == idx;
        forall k | 0 <= k < |idx| ensures idx[k] < |items| && r[k] == items[idx[k]] {
          if k > 0 {
            assert idx[k] == restIdx[k - 1] && r[k] == rest[k - 1];
          }
        }
        assert ReadAt(r, items, idx);
      } else {
        assert Filter(items[from..], keywords, location) == rest;
        assert MatchingIndices(items, keywords, location, from) == restIdx;
      }
    }
  }

  /** Filtering keeps exactly the matching listings, in their original relative
      order: the result is the input read at the matching positions, taken in
      increasing order, and every matching position is among them. */
  lemma FilterSelectsMatching(items: seq<Listing>, keywords: string, location: string)
    ensures SelectedAt(Filter(items, keywords, location), items, MatchingIndices(items, keywords, location, 0))
    ensures forall i :: 0 <= i < |items| ==>
              (i in MatchingIndices(items, keywords, location, 0) <==> Matches(items[i], keywords, location))
  {
    MatchingIndicesOrdered(items, keywords, location, 0);
    MatchingIndicesExact(items, keywords, location, 0);
    FilterReadsIndicesFrom(items, keywords, location, 0);
    assert items[0..] == items;
  }

  /** Nothing is added or duplicated and no matching listing is dropped: each
      listing occurs in the result as often as in the input when it matches,
      and not at all otherwise. */
  lemma {:induction false} FilterMultiplicity(items: seq<Listing>, keywords: string, location: string, x: Listing)
    ensures multiset(Filter(items, keywords, location))[x]
            == if Matches(x, keywords, location) then multiset(items)[x] else 0
  {
    if items != [] {
      FilterMultiplicity(items[1..], keywords, location, x);
      assert items == [items[0]] + items[1..];
    }
  }

  /** When every listing matches, the filter returns its input unchanged. */
  lemma {:induction false} FilterKeepsAll(items: seq<Listing>, keywords: string, location: string)
    requires forall x :: x in items ==> Matches(x, keywords, location)
    ensures Filter(items, keywords, location) == items
  {
    if items != [] {
      FilterKeepsAll(items[1..], keywords, location);
    }
  }

  /** When no listing matches, the filter returns the empty list. */
  lemma FilterKeepsNone(items: seq<Listing>, keywords: string, location: string)
    requires forall x :: x in items ==> !Matches(x, keywords, location)
    ensures Filter(items, keywords, location) == []
  {
  }

  /** Empty keywords and location match every listing, so the handler's early
      return of the whole sample list agrees with filtering it. */
  lemma EmptyQueryKeepsAll(items: seq<Listing>)
    ensures Filter(items, "", "") == items
  {
    FilterKeepsAll(items, "", "");
  }

  /** The query strings are compared case-insensitively: lower-casing them
      first changes nothing. */
  lemma MatchesIgnoresQueryCase(item: Listing, keywords: string, location: string)
    ensures Matches(item, keywords, location) == Matches(item, Lower(keywords), Lower(location))
  {
    LowerIdempotent(keywords);
    LowerIdempotent(location);
  }

  /** Searching with queries that differ only in case gives the same results. */
  lemma {:induction false} FilterIgnoresQueryCase(items: seq<Listing>, keywords: string, location: string)
    ensures Filter(items, keywords, location) == Filter(items, Lower(keywords), Lower(location))
  {
    if items != [] {
      MatchesIgnoresQueryCase(items[0], keywords, location);
      FilterIgnoresQueryCase(items[1..], keywords, location);
    }
  }

  /** Two searches whose keywords and locations are equal once lower-cased
      give the same results. */
  lemma FilterSameIgnoringCase(items: seq<Listing>, k1: string, l1: string, k2: string, l2: string)
    requires Lower(k1) == Lower(k2) && Lower(l1) == Lower(l2)
    ensures Filter(items, k1, l1) == Filter(items, k2, l2)
  {
    FilterIgnoresQueryCase(items, k1, l1);
    FilterIgnoresQueryCase(items, k2, l2);
  }
}



/** The sample-data checks: what the filter keeps from the three hard-coded
    listings for a few concrete queries. */
module SampleScenarios {
  import opened StringOps
  import opened Listings

  /** Filtering a three-element list, written out element by element. */
  lemma FilterOfThree(items: seq<Listing>, keywords: string, location: string)
    requires |items| == 3
    ensures Filter(items, keywords, location)
            == (if Matches(items[0], keywords, location) then [items[0]] else [])
             + (if Matches(items[1], keywords, location) then [items[1]] else [])
             + (if Matches(items[2], keywords, location) then [items[2]] else [])
  {
    assert items[1..][1..] == items[2..];
    assert items[2..][1..] == [];
    assert Filter(items[2..], keywords, location)
           == if Matches(items[2], keywords, location) then [items[2]] else [];
  }

  /** A three-element list whose listings all match is kept whole. */
  lemma ThreeMatchingKept(items: seq<Listing>, keywords: string, location: string)
    requires |items| == 3
    requires Matches(items[0], keywords, location)
    requires Matches(items[1], keywords, location)
    requires Matches(items[2], keywords, location)
    ensures Filter(items, keywords, location) == items
  {
    FilterOfThree(items, keywords, location);
    assert [items[0]] + [items[1]] + [items[2]] == items;
  }

  lemma BikeTitleHasBike()
    ensures Matches(SampleResults()[0], "bike", "")
  {
    IncludesLowerAt(SampleResults()[0].title, "bike", 8);
  }

  lemma TableTitleLacksBike()
    ensures !Matches(SampleResults()[1], "bike", "")
  {
    NotIncludesLower(SampleResults()[1].title, "bike");
  }

  lemma SofaTitleLacksBike()
    ensures !Matches(SampleResults()[2], "bike", "")
  {
    NotIncludesLower(SampleResults()[2].title, "bike");
  }

  lemma BikeTitleLacksZzz()
    ensures !Matches(SampleResults()[0], "zzz", "")
  {
    NotIncludesLower(SampleResults()[0].title, "zzz");
  }

  lemma TableTitleLacksZzz()
    ensures !Matches(SampleResults()[1], "zzz", "")
  {
    NotIncludesLower(SampleResults()[1].title, "zzz");
  }

  lemma SofaTitleLacksZzz()
    ensures !Matches(SampleResults()[2], "zzz", "")
  {
    NotIncludesLower(SampleResults()[2].title, "zzz");
  }

  /** Keyword "bike" keeps only the listing with id "1". */
  lemma BikeKeepsOnlyTheBike()
    ensures Filter(SampleResults(), "bike", "") == [SampleResults()[0]]
    ensures SampleResults()[0].id == "1"
  {
    BikeTitleHasBike();
    TableTitleLacksBike();
    SofaTitleLacksBike();
    FilterOfThree(SampleResults(), "bike", "");
  }

  /** Every sample location ends in ", CA", so location "ca" keeps all three
      listings, in their original order. */
  lemma CaKeepsAll()
    ensures Filter(SampleResults(), "", "ca") == SampleResults()
  {
    var items := SampleResults();
    SampleLocationsEndInCa();
    EndsInCaMatchesCa(items[0]);
    EndsInCaMatchesCa(items[1]);
    EndsInCaMatchesCa(items[2]);
    ThreeMatchingKept(items, "", "ca");
  }

  /** The upper-case query "CA" gives the same list, still unsorted. */
  lemma UpperCaKeepsAll()
    ensures Filter(SampleResults(), "", "CA") == SampleResults()
  {
    var upper, lower := "CA", "ca";
    FilterIgnoresQueryCase(SampleResults(), "", upper);
    assert Lower(upper) == lower;
    assert Lower("") == "";
    CaKeepsAll();
  }

  /** Keyword "zzz" occurs in no sample title, so the search yields an empty
      list, not an error. */
  lemma NoMatchIsEmpty()
    ensures Filter(SampleResults(), "zzz", "") == []
  {
    BikeTitleLacksZzz();
    TableTitleLacksZzz();
    SofaTitleLacksZzz();
    FilterOfThree(SampleResults(), "zzz", "");
  }
}
