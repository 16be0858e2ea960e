/** The mock catalogue (lib/data.ts): fifty generated places, a paginated
    search over them, and lookup by id. `toLowerCase` is a parameter. */
module MockData {
  import opened Common
  import opened Seqs
  import opened Text
  import opened Places
  import opened Paging

  const MockCount := 50

  /** The mock place at zero-based position `i`: numbered `i + 1`, with a
      picture for every third place starting with the first. */
  function MockPlace(i: nat): Place
  {
    var n := NatToString(i + 1);
    Place("place-" + n, "Place " + n,
          "This is a description for Place " + n + ". It's a great location to visit.",
          if i % 3 == 0 then Some("https://picsum.photos/seed/" + n + "/300/200") else None,
          None, None, None, None, None, None)
  }

  /** `generateMockPlaces()`. */
  function MockPlaces(): (r: seq<Place>)
    ensures |r| == MockCount
  {
    seq(MockCount, i requires 0 <= i < MockCount => MockPlace(i))
  }

  /** The catalogue holds `place-1` … `place-50` in order, and a place has an
      image exactly when its zero-based position is a multiple of three. */
  lemma MockPlacesShape()
    ensures forall i :: 0 <= i < |MockPlaces()| ==>
      MockPlaces()[i].id == "place-" + NatToString(i + 1) && (MockPlaces()[i].image.Some? <==> i % 3 == 0)
  {
  }

  /** Two mock ids are equal only for the same number. */
  lemma MockIdInjective(m: nat, n: nat)
    requires "place-" + NatToString(m) == "place-" + NatToString(n)
    ensures m == n
  {
    assert ("place-" + NatToString(m))[6..] == NatToString(m);
    assert ("place-" + NatToString(n))[6..] == NatToString(n);
    NatToStringInjective(m, n);
  }

  /** No two mock places share an id. */
  lemma MockIdsDistinct()
    ensures NoDup(PlaceIds(MockPlaces()))
  {
    var ids := PlaceIds(MockPlaces());
    MockPlacesShape();
    forall i, j | 0 <= i < j < |ids| ensures ids[i] != ids[j] {
      if ids[i] == ids[j] {
        MockIdInjective(i + 1, j + 1);
      }
    }
  }

  /** The search test: the lower-cased title or description contains the
      lower-cased query. */
  function Matches(query: string, lower: string -> string): Place -> bool
  {
    (p: Place) => Contains(lower(p.title), lower(query)) || Contains(lower(p.description), lower(query))
  }

  /** The places a query selects: all of them for an empty query, otherwise
      exactly the matching ones, in catalogue order. */
  function Filtered(query: string, lower: string -> string): (r: seq<Place>)
    ensures query == "" ==> r == MockPlaces()
    ensures forall p :: p in r <==> p in MockPlaces() && (query == "" || Matches(query, lower)(p))
    ensures SubsequenceOf(r, MockPlaces())
  {
    if query == "" then
      SubsequenceOfSelf(MockPlaces());
      MockPlaces()
    else
      FilterMembers(MockPlaces(), Matches(query, lower));
      FilterSubsequence(MockPlaces(), Matches(query, lower));
      Filter(MockPlaces(), Matches(query, lower))
  }

  datatype SearchPage = SearchPage(places: seq<Place>, hasMore: bool, total: nat)

  /** `searchPlaces(query, page, limit)`: the page of the selected places
      starting at `page * limit`, whether anything follows it, and the count
      of every selected place whatever the page. */
  function SearchPlaces(query: string, page: nat, limit: nat, lower: string -> string): (r: SearchPage)
    ensures r.places == Page(Filtered(query, lower), page, limit)
    ensures r.total == |Filtered(query, lower)|
    ensures r.hasMore <==> PageStart(page, limit) + limit < r.total
    ensures forall p :: p in r.places ==> p in MockPlaces() && (query == "" || Matches(query, lower)(p))
  {
    var filtered := Filtered(query, lower);
    SearchPage(Page(filtered, page, limit), PageStart(page, limit) + limit < |filtered|, |filtered|)
  }

  /** Reading pages 0, 1, … until one reports nothing more yields exactly the
      selected places. */
  lemma SearchPagesComplete(query: string, page: nat, limit: nat, lower: string -> string)
    requires !SearchPlaces(query, page, limit, lower).hasMore
    ensures PagesUpTo(Filtered(query, lower), limit, page + 1) == Filtered(query, lower)
  {
    LastPageCompletes(Filtered(query, lower), page, limit);
  }

  /** `getPlaceById(id)`: the mock place with that id, or null. */
  function GetPlaceById(id: string): (r: Option<Place>)
    ensures r.Some? ==> r.value in MockPlaces() && r.value.id == id
    ensures r.None? <==> forall p :: p in MockPlaces() ==> p.id != id
  {
    match FirstIndex(MockPlaces(), HasId(id))
    case Some(i) => Some(MockPlaces()[i])
    case None => None
  }

  /** Every mock id finds its own place. */
  lemma GetPlaceByIdFindsEach(k: nat)
    requires 1 <= k <= MockCount
    ensures GetPlaceById("place-" + NatToString(k)) == Some(MockPlaces()[k - 1])
  {
    var id := "place-" + NatToString(k);
    var places := MockPlaces();
    var found := FirstIndex(places, HasId(id));
    assert found.Some? by {
      MockPlacesShape();
      assert HasId(id)(places[k - 1]);
    }
    var i := found.value;
    assert "place-" + NatToString(i + 1) == id by {
      MockPlacesShape();
    }
    MockIdInjective(i + 1, k);
  }
}
