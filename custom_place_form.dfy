/** The place-search form of the route list (components/CustomPlaceForm.tsx):
    it searches local places by name, flags the results already in the
    route, and turns a chosen result into a place. The local search itself
    is an input. */
module CustomPlaceForm {
  import opened Common
  import opened Seqs
  import opened Text
  import opened Markup
  import opened Places

  /** A result of the local place search. */
  datatype LocalPlace = LocalPlace(
    id: string, title: string, category: Option<string>, description: Option<string>,
    address: Option<string>, roadAddress: Option<string>, mapx: Option<string>, mapy: Option<string>)

  /** Whether candidate `c` names the same place as `existing`: by coordinates
      when both have both, otherwise by title with the tags stripped. */
  predicate SameSpot(c: LocalPlace, existing: Place)
  {
    if Truthy(c.mapx) && Truthy(c.mapy) && Truthy(existing.mapx) && Truthy(existing.mapy) then
      c.mapx == existing.mapx && c.mapy == existing.mapy
    else StripTags(c.title) == StripTags(existing.title)
  }

  /** `isPlaceAlreadyAdded`: `routePoints.some(…)`. */
  function IsPlaceAlreadyAdded(c: LocalPlace, route: seq<Place>): (added: bool)
    ensures added <==> exists i :: 0 <= i < |route| && SameSpot(c, route[i])
  {
    if route == [] then false
    else SameSpot(c, route[0]) || IsPlaceAlreadyAdded(c, route[1..])
  }

  datatype FlaggedPlace = FlaggedPlace(place: LocalPlace, isDuplicate: bool)

  /** How the local search ended: it threw, or it answered with a list of
      items that may be absent. */
  datatype LocalSearch = SearchThrew | SearchAnswered(items: Option<seq<LocalPlace>>)

  datatype SearchOutcome = NoSearch | SearchError(message: string) | Results(flagged: seq<FlaggedPlace>)

  const NoResults := "검색 결과가 없습니다. 다른 키워드로 검색해 보세요."
  const SearchFailed := "장소 검색 중 오류가 발생했습니다."

  /** `searchPlace`: a blank name searches nothing; a failed search or an
      empty answer is reported; otherwise every item is shown with its
      duplicate flag. */
  function SearchPlace(name: string, search: LocalSearch, route: seq<Place>): (o: SearchOutcome)
    ensures o.NoSearch? <==> IsBlank(name)
    ensures o.Results? ==> (search.SearchAnswered? && search.items.Some?
      && |o.flagged| == |search.items.value| > 0)
    ensures o.Results? ==> forall i :: 0 <= i < |o.flagged| ==>
      o.flagged[i].place == search.items.value[i]
      && (o.flagged[i].isDuplicate <==> exists j :: 0 <= j < |route| && SameSpot(search.items.value[i], route[j]))
    ensures !IsBlank(name) && search.SearchThrew? ==> o == SearchError(SearchFailed)
    ensures !IsBlank(name) && search.SearchAnswered? ==>
      (o.Results? <==> search.items.Some? && |search.items.value| > 0)
    ensures !IsBlank(name) && search.SearchAnswered? && !(search.items.Some? && |search.items.value| > 0) ==>
      o == SearchError(NoResults)
  {
    TrimEmptyIffBlank(name);
    if Trim(name) == "" then NoSearch
    else match search
      case SearchThrew => SearchError(SearchFailed)
      case SearchAnswered(items) =>
        if items.Some? && |items.value| > 0 then
          Results(seq(|items.value|, i requires 0 <= i < |items.value| =>
            FlaggedPlace(items.value[i], IsPlaceAlreadyAdded(items.value[i], route))))
        else SearchError(NoResults)
  }

  const DefaultDescription := "사용자 지정 장소"

  /** `handleSelectPlace`: nothing is added without an `onAddPlace` handler or
      for a flagged result; otherwise the place handed over keeps the result's
      id (or "custom-" and a fresh `uuid` when it has none), its tag-stripped
      title, its category as description (or the default text), and its
      coordinates and addresses. */
  function SelectPlace(chosen: FlaggedPlace, hasHandler: bool, uuid: string): (p: Option<Place>)
    ensures p.Some? <==> hasHandler && !chosen.isDuplicate
    ensures p.Some? ==> p.value.id == (if chosen.place.id != "" then chosen.place.id else "custom-" + uuid)
    ensures p.Some? ==> TagFree(p.value.title) && p.value.title == StripTags(chosen.place.title)
    ensures p.Some? ==> (p.value.mapx == chosen.place.mapx && p.value.mapy == chosen.place.mapy
      && p.value.address == chosen.place.address && p.value.roadAddress == chosen.place.roadAddress)
    ensures p.Some? ==> p.value.description == OrElse(chosen.place.category, DefaultDescription)
  {
    StripTagsIsTagFree(chosen.place.title);
    if !hasHandler || chosen.isDuplicate then None
    else
      var c := chosen.place;
      Some(Place(
        if c.id != "" then c.id else "custom-" + uuid,
        StripTags(c.title),
        OrElse(c.category, DefaultDescription),
        None, None, None, c.mapx, c.mapy, c.address, c.roadAddress))
  }

  /** Once a chosen result has been added to the route, searching again
      flags that same result as a duplicate. */
  lemma SelectedPlaceIsFlaggedAfterwards(c: LocalPlace, route: seq<Place>, uuid: string)
    ensures var p := SelectPlace(FlaggedPlace(c, false), true, uuid).value;
      IsPlaceAlreadyAdded(c, route + [p])
  {
    var p := SelectPlace(FlaggedPlace(c, false), true, uuid).value;
    StripTagsIdempotent(c.title);
    assert SameSpot(c, p);
    assert (route + [p])[|route|] == p;
  }
}
