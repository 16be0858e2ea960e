/** The home page (app/page.tsx): what the result list shows after a search.
    The converted search results and the stored recent places are inputs. */
module HomePage {
  import opened Common
  import opened Places

  datatype HomeView = HomeView(places: seq<Place>, hasMore: bool, total: nat)

  /** `handleSearch`: non-empty results are shown; an empty query shows the
      stored recent places again; any other query with no results shows an
      empty list. Paging is off in every case. */
  function HandleSearch(query: string, results: seq<Place>, stored: seq<Place>): (v: HomeView)
    ensures |results| > 0 ==> v.places == results
    ensures |results| == 0 && query == "" ==> v.places == stored
    ensures |results| == 0 && query != "" ==> v.places == []
    ensures !v.hasMore && v.total == |v.places|
  {
    if |results| > 0 then HomeView(results, false, |results|)
    else if query == "" then HomeView(stored, false, |stored|)
    else HomeView([], false, 0)
  }
}
