/** The view state of the MarketMergeContainer component and the two small
    text expressions its markup computes from that state. */
module MarketMergeContainer {
  import opened StringOps
  import opened Listings

  datatype Option<T> = None | Some(value: T)

  /** The component's state: the two search inputs, the listings on show and
      the listing opened in the detail modal, if any. Each React state setter
      is a plain field assignment here. */
  class Container {
    var keywords: string
    var location: string
    var results: seq<Listing>
    var detailItem: Option<Listing>

    /** Both inputs start empty, the whole sample list is on show and no
        modal is open. */
    constructor ()
      ensures keywords == "" && location == ""
      ensures results == SampleResults()
      ensures detailItem == None
    {
      keywords := "";
      location := "";
      results := SampleResults();
      detailItem := None;
    }

    /** The change handler of both keyword inputs: the search form's and the
        filter panel's. */
    method SetKeywords(value: string)
      modifies this`keywords
      ensures keywords == value
    {
      keywords := value;
    }

    /** The change handler of both location inputs: the search form's and the
        filter panel's. */
    method SetLocation(value: string)
      modifies this`location
      ensures location == value
    {
      location := value;
    }

    /** Submitting the search form. With both inputs empty the handler returns
        the sample list at once; otherwise it filters the sample list. Either
        way the new results are the sample listings that match the current
        inputs, in their original order, whatever was on show before; the
        inputs and the modal are left alone. */
    method SearchSubmit()
      modifies this`results
      ensures results == Filter(SampleResults(), keywords, location)
      ensures forall x :: x in results ==> x in SampleResults()
      ensures keywords != "" ==>
                forall x :: x in results ==> Includes(Lower(x.title), Lower(keywords))
      ensures location != "" ==>
                forall x :: x in results ==> Includes(Lower(x.location), Lower(location))
    {
      if keywords == "" && location == "" {
        results := SampleResults();
        EmptyQueryKeepsAll(SampleResults());
        return;
      }
      results := Filter(SampleResults(), keywords, location);
    }

    /** Clicking a card opens it in the detail modal. */
    method CardClick(item: Listing)
      modifies this`detailItem
      ensures detailItem == Some(item)
    {
      detailItem := Some(item);
    }

    /** Closing the modal clears the selected listing. */
    method CloseModal()
      modifies this`detailItem
      ensures detailItem == None
    {
      detailItem := None;
    }

  }

  const NoListings := "No listings found."

  /** The heading above the grid: "No listings found." for an empty list and
      otherwise `Results (n)`, where the digits have no leading zero and read
      back as the count. */
  function ResultsHeader(count: nat): (r: string)
    ensures r == NoListings <==> count == 0
    ensures count > 0 ==>
              |r| > 10 && r[..9] == "Results (" && r[|r| - 1] == ')' &&
              IsDigits(r[9..|r| - 1]) && DecimalValue(r[9..|r| - 1]) == count &&
              (|r| > 11 ==> r[9] != '0')
  {
    if count == 0 then NoListings
    else
      var digits := NatToDecimal(count);
      var r := "Results (" + digits + ")";
      assert r[9..|r| - 1] == digits;
      DecimalRoundTrip(count);
      r
  }

  /** `tag.charAt(0).toUpperCase() + tag.slice(1)`: the marketplace tag with
      its first character upper-cased and the rest kept as it is. */
  function DisplayName(tag: string): (r: string)
    ensures |r| == |tag|
    ensures |tag| > 0 ==> r[0] == UpperChar(tag[0])
    ensures forall i :: 1 <= i < |tag| ==> r[i] == tag[i]
  {
    if tag == [] then [] else [UpperChar(tag[0])] + tag[1..]
  }

  /** Capitalising a tag twice is capitalising it once. */
  lemma DisplayNameIdempotent(tag: string)
    ensures DisplayName(DisplayName(tag)) == DisplayName(tag)
  {
  }

  /** The display name differs from the tag only in case. */
  lemma DisplayNameSameIgnoringCase(tag: string)
    ensures Lower(DisplayName(tag)) == Lower(tag)
  {
  }

  /** The three sample marketplaces as the modal shows them. */
  lemma SampleDisplayNames()
    ensures DisplayName("craigslist") == "Craigslist"
    ensures DisplayName("facebook") == "Facebook"
    ensures DisplayName("nextdoor") == "Nextdoor"
  {
  }
}
