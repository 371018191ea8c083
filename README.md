# MarketMerge search container, modelled in Dafny

MarketMerge is a single-page demo UI. It has one search form over three
hard-coded marketplace listings (craigslist, facebook, nextdoor), a result
grid, and a detail modal. The only logic is in the `MarketMergeContainer`
component:

- the listing filter used when the search form is submitted;
- the component's four pieces of state: the keyword input, the location
  input, the results on show and the listing opened in the modal;
- two small text expressions in the markup: the results header and the
  capitalised marketplace name.

The model has three files:

- `StringOps.dfy`: ASCII lower- and upper-casing, standing in for
  `toLowerCase`/`toUpperCase`. It also holds substring containment
  (`includes`) with its characterisation by positions, and the decimal
  rendering of a count with its read-back function.
- `Listings.dfy`: the `Listing` record, the fixed sample list and the match
  predicate. It also holds `Filter`, which models `Array.prototype.filter`,
  and the lemmas that `Filter` keeps exactly the matching listings, in
  order, with their multiplicities. Module `SampleScenarios` checks
  concrete queries against the sample data.
- `MarketMergeContainer.dfy`: the component state as a class, with one
  method per handler. It also holds the results header and the marketplace
  display name, with their lemmas.

The code filters one fixed in-memory list. It does not sort, merge, fetch
or fail, and neither does the model. For example, location "CA" gives the
three listings in their declared order (Vintage Bike, Coffee Table, Sofa
Couch), not sorted by title (`SampleScenarios.UpperCaKeepsAll`).

## Model

| member | source | states |
|---|---|---|
| `StringOps.Lower` | marketmerge_frontend/src/MarketMergeContainer.js:87-90 | lower-casing keeps the length and lower-cases each character in place |
| `StringOps.LowerIdempotent` | marketmerge_frontend/src/MarketMergeContainer.js:87-90 | lower-casing an already lower-cased string changes nothing |
| `StringOps.IncludesIff` | marketmerge_frontend/src/MarketMergeContainer.js:87-90 | `includes` holds exactly when the needle occurs at some position of the text (both directions) |
| `StringOps.Includes` | marketmerge_frontend/src/MarketMergeContainer.js:87-90 | `includes` always finds a prefix of the text, the empty string included, and never finds a needle longer than the text |
| `StringOps.DecimalRoundTrip` | marketmerge_frontend/src/MarketMergeContainer.js:154 | the decimal digits printed for a count read back as that count |
| `StringOps.NatToDecimal` | marketmerge_frontend/src/MarketMergeContainer.js:154 | a count prints as at least one digit, digits only, with no leading zero |
| `Listings.SampleResults` | marketmerge_frontend/src/MarketMergeContainer.js:29-60 | the sample list holds three listings with pairwise distinct ids |
| `Listings.SampleLocationsEndInCa` | marketmerge_frontend/src/MarketMergeContainer.js:36-56 | every sample location ends in ", CA" |
| `Listings.IncludesLowerIff` | marketmerge_frontend/src/MarketMergeContainer.js:87-90 | `includes` on the two lower-cased strings holds exactly when the query occurs in the text, ignoring case, at some position |
| `Listings.EndsInCaMatchesCa` | marketmerge_frontend/src/MarketMergeContainer.js:89-91 | a listing whose location ends in ", CA" matches the location query "ca" |
| `Listings.MatchesIff` | marketmerge_frontend/src/MarketMergeContainer.js:85-91 | the filter predicate holds exactly when non-empty keywords occur, ignoring case, in the title and a non-empty location query occurs, ignoring case, in the location; an empty query string puts no constraint on its field |
| `Listings.Filter` | marketmerge_frontend/src/MarketMergeContainer.js:84-92 | the result is no longer than the input, and every listing in it comes from the input and satisfies the keyword and location predicate |
| `Listings.FilterSelectsMatching` | marketmerge_frontend/src/MarketMergeContainer.js:83-93 | the result is the input read at strictly increasing positions, and those positions are exactly the positions of matching listings, so it keeps the original order and drops no match |
| `Listings.FilterMultiplicity` | marketmerge_frontend/src/MarketMergeContainer.js:84-92 | each matching listing occurs in the result as often as in the input; a non-matching one does not occur at all |
| `Listings.FilterKeepsAll` | marketmerge_frontend/src/MarketMergeContainer.js:84-92 | when every listing matches, the filter returns its input unchanged |
| `Listings.FilterKeepsNone` | marketmerge_frontend/src/MarketMergeContainer.js:84-92 | when no listing matches, the filter returns the empty list, not an error |
| `Listings.EmptyQueryKeepsAll` | marketmerge_frontend/src/MarketMergeContainer.js:79-93 | with empty keywords and location, filtering returns the whole list, so the early return agrees with the filter |
| `Listings.MatchesIgnoresQueryCase` | marketmerge_frontend/src/MarketMergeContainer.js:86-91 | the predicate gives the same answer for a query and its lower-cased form |
| `Listings.FilterIgnoresQueryCase` | marketmerge_frontend/src/MarketMergeContainer.js:84-92 | filtering with a query and with its lower-cased form gives the same results |
| `Listings.FilterSameIgnoringCase` | marketmerge_frontend/src/MarketMergeContainer.js:84-92 | two searches whose keywords and locations are equal once lower-cased give the same results |
| `SampleScenarios.BikeKeepsOnlyTheBike` | marketmerge_frontend/src/MarketMergeContainer.js:29-60 | keyword "bike" keeps only the listing with id "1" |
| `SampleScenarios.CaKeepsAll` | marketmerge_frontend/src/MarketMergeContainer.js:29-60 | location "ca" keeps all three sample listings in their declared order, because every sample location ends in ", CA" |
| `SampleScenarios.UpperCaKeepsAll` | marketmerge_frontend/src/MarketMergeContainer.js:89-91 | location "CA" gives the same unsorted list as "ca" |
| `SampleScenarios.NoMatchIsEmpty` | marketmerge_frontend/src/MarketMergeContainer.js:84-92 | keyword "zzz", which occurs in no sample title, gives an empty list, not an error |
| `MarketMergeContainer.Container.constructor` | marketmerge_frontend/src/MarketMergeContainer.js:68-73 | both inputs start empty, the results start as the whole sample list, and no listing is selected |
| `MarketMergeContainer.Container.SetKeywords` | marketmerge_frontend/src/MarketMergeContainer.js:114-134 | the change handlers of both keyword inputs (the search form's, line 114, and the filter panel's, line 134) set `keywords` and nothing else |
| `MarketMergeContainer.Container.SetLocation` | marketmerge_frontend/src/MarketMergeContainer.js:121-144 | the change handlers of both location inputs (the search form's, line 121, and the filter panel's, line 144) set `location` and nothing else |
| `MarketMergeContainer.Container.SearchSubmit` | marketmerge_frontend/src/MarketMergeContainer.js:76-94 | results become the sample listings that match the current inputs, whatever was on show before. Every result comes from the sample list. With non-empty keywords each result's lower-cased title contains them; with a non-empty location each result's lower-cased location contains it. Only `results` changes, so a second submit gives the same results |
| `MarketMergeContainer.Container.CardClick` | marketmerge_frontend/src/MarketMergeContainer.js:97-99 | the clicked listing becomes the modal's item; results and inputs are unchanged |
| `MarketMergeContainer.Container.CloseModal` | marketmerge_frontend/src/MarketMergeContainer.js:102-104 | the modal's item is cleared; results and inputs are unchanged |
| `MarketMergeContainer.ResultsHeader` | marketmerge_frontend/src/MarketMergeContainer.js:152-154 | the header is "No listings found." exactly when the count is 0; otherwise it is `Results (` + digits + `)`, where the digits have no leading zero and read back as the count |
| `MarketMergeContainer.DisplayName` | marketmerge_frontend/src/MarketMergeContainer.js:186 | the display name has the tag's length, its first character is the upper-cased first character of the tag, and the rest is unchanged |
| `MarketMergeContainer.DisplayNameIdempotent` | marketmerge_frontend/src/MarketMergeContainer.js:186 | capitalising a display name again changes nothing |
| `MarketMergeContainer.DisplayNameSameIgnoringCase` | marketmerge_frontend/src/MarketMergeContainer.js:186 | the display name and the tag are equal once both are lower-cased |
| `MarketMergeContainer.SampleDisplayNames` | marketmerge_frontend/src/MarketMergeContainer.js:32-52 | the sample tags display as "Craigslist", "Facebook" and "Nextdoor" |

## Left out

- Lower, UpperChar, LowerChar: only ASCII letters change case. JavaScript's full Unicode `toLowerCase`/`toUpperCase` is not modelled. Some of its mappings change a string's length (upper-case "ß" is "SS").
- DisplayName: its length claim holds for the ASCII model only, for the same reason.
- JSX markup, CSS classes, the SVG logos and the `marketplaceLogos` lookup, images and links (MarketMergeContainer.js:14-24, 106-200) are presentation only and are not modelled.
- marketmerge_frontend/src/App.js is page layout and navbar markup with no logic, and is not part of this model.
- React's `useState` machinery is not modelled: render batching, `e.preventDefault()` and `stopPropagation()`. Each setter is a direct field assignment, and a handler reads the inputs as they stand when it runs.
- `null` for "no listing selected" is modelled as `Option.None`. A listing is never falsy, so `detailItem &&` in the markup tests only for presence.
- Prices, image URLs and links are opaque strings.
- Provider merging, sorting by title, concurrent fetching, error reporting and deduplication are not in the code, so the model has none of them.
