/** The places endpoint (app/api/places/route.ts): an in-memory store of
    places by id and the server's recent-places list. */
module PlacesApi {
  import opened Common
  import opened Seqs
  import opened Text
  import opened Markup
  import opened Places
  import opened RecentPlaces

  /** `sanitizeHtml`: tags removed, then surrounding white space. The result
      neither starts nor ends with white space and occurs inside the text
      left once the tags are stripped. */
  function Sanitize(s: string): (r: string)
    ensures r == [] || (!IsSpace(r[0]) && !IsSpace(r[|r| - 1]))
    ensures Contains(StripTags(s), r)
  {
    TrimSpec(StripTags(s));
    Trim(StripTags(s))
  }

  /** A sanitised id holds no tag. */
  lemma SanitizeTagFree(s: string)
    ensures TagFree(Sanitize(s))
  {
    var t := StripTags(s);
    StripTagsIsTagFree(s);
    TrimIsSlice(t);
    var a := |t| - |TrimStart(t)|;
    TagFreeSlice(t, a, a + |Trim(t)|);
  }

  /** Sanitising an id twice gives the same id as sanitising it once. */
  lemma SanitizeIdempotent(s: string)
    ensures Sanitize(Sanitize(s)) == Sanitize(s)
  {
    var u := Sanitize(s);
    SanitizeTagFree(s);
    StripTagsKeepsTagFree(u);
    TrimIdempotent(StripTags(s));
  }

  /** With unique ids, removing the first entry with an id (`findIndex` then
      `splice`) is the same as filtering out every entry with that id. */
  lemma SpliceIsFilter(recent: seq<Place>, id: string)
    requires NoDup(PlaceIds(recent))
    ensures (match FirstIndex(recent, HasId(id))
             case None => recent
             case Some(i) => RemoveAt(recent, i)) == Filter(recent, PlaceNotId(id))
  {
    match FirstIndex(recent, HasId(id))
    case None =>
      FilterKeepsAll(recent, PlaceNotId(id));
    case Some(i) =>
      var after := recent[i + 1..];
      assert recent == recent[..i] + [recent[i]] + after;
      forall k | 0 <= k < |after| ensures PlaceNotId(id)(after[k]) {
        assert PlaceIds(recent)[i] != PlaceIds(recent)[i + 1 + k];
      }
      FilterDropsOne(recent[..i], recent[i], after, PlaceNotId(id));
  }

  datatype PostResponse = Stored(placeId: string) | InvalidPlace | SaveFailed

  const SampleTitle := "샘플 장소"
  const SampleDescription := "테스트용 더미 데이터입니다. 실제 데이터베이스에서는 이 장소를 찾을 수 없습니다."
  const SampleImage := "https://via.placeholder.com/300x200?text=Sample+Place"

  datatype GetResponse =
    | Found(place: Place, suggestions: seq<Place>)
    | Sample(place: Place)
    | AllRecent(places: seq<Place>)

  /** `recentPlaces.filter(p => p.id !== id).slice(0, 5)`: the first five
      recent places without the given id (all of them when there are fewer),
      in their recency order. */
  function Suggestions(recent: seq<Place>, id: string): (r: seq<Place>)
    ensures var others := Filter(recent, PlaceNotId(id));
      |r| == (if |others| < 5 then |others| else 5) && r == others[..|r|]
    ensures forall i :: 0 <= i < |r| ==> r[i].id != id && r[i] in recent
    ensures SubsequenceOf(r, recent)
  {
    var f := Filter(recent, PlaceNotId(id));
    FilterMembers(recent, PlaceNotId(id));
    FilterSubsequence(recent, PlaceNotId(id));
    var n := if |f| < 5 then |f| else 5;
    PrefixSubsequence(f, recent, n);
    assert Take(f, 5) == f[..n];
    Take(f, 5)
  }

  /** `GET` over a given state: without an id, the whole recent list; with an
      id, the place stored under the sanitised id, else under the raw id,
      with up to five other recent places as suggestions; else a sample
      place and no suggestions. */
  function Lookup(storage: map<string, Place>, recent: seq<Place>, id: Option<string>): (r: GetResponse)
    ensures !Truthy(id) <==> r.AllRecent?
    ensures r.AllRecent? ==> r.places == recent
    ensures r.Found? ==> ((Sanitize(id.value) in storage && r.place == storage[Sanitize(id.value)])
      || (Sanitize(id.value) !in storage && id.value in storage && r.place == storage[id.value]))
    ensures r.Sample? <==> Truthy(id) && Sanitize(id.value) !in storage && id.value !in storage
    ensures r.Found? ==> (|r.suggestions| <= 5
      && forall i :: 0 <= i < |r.suggestions| ==> r.suggestions[i].id != r.place.id && r.suggestions[i] in recent)
    ensures r.Found? ==> var others := Filter(recent, PlaceNotId(r.place.id));
      |r.suggestions| == (if |others| < 5 then |others| else 5) && r.suggestions == others[..|r.suggestions|]
      && SubsequenceOf(r.suggestions, recent)
  {
    if !Truthy(id) then AllRecent(recent)
    else
      var sid := Sanitize(id.value);
      var found := if sid in storage then Some(storage[sid])
                   else if id.value in storage then Some(storage[id.value]) else None;
      match found
      case Some(p) => Found(p, Suggestions(recent, p.id))
      case None =>
        Sample(Place(if sid != "" then sid else id.value, SampleTitle, SampleDescription,
                     Some(SampleImage), None, None, None, None, None, None))
  }

  /** The endpoint's `findIndex` and `splice` of the old entry leave the
      other entries, as filtering does when ids are unique. */
  lemma SpliceLeavesOthers(recent: seq<Place>, id: string, existing: Option<nat>, rest: seq<Place>)
    requires NoDup(PlaceIds(recent))
    requires existing == FirstIndex(recent, HasId(id))
    requires rest == if existing.Some? then RemoveAt(recent, existing.value) else recent
    ensures rest == Filter(recent, PlaceNotId(id))
  {
    SpliceIsFilter(recent, id);
    match existing {
      case None =>
      case Some(i) => assert rest == RemoveAt(recent, i);
    }
  }

  /** `unshift` of the place and, past ten entries, `pop` on the other
      entries compute the home page's move-to-front. */
  lemma UnshiftThenPop(recent: seq<Place>, stored: Place)
    requires |recent| <= MaxRecent
    ensures var others := Filter(recent, PlaceNotId(stored.id));
      && |others| <= MaxRecent
      && (if |others| + 1 > MaxRecent then [stored] + others[..|others| - 1] else [stored] + others)
         == MoveToFront(recent, stored)
  {
    var others := Filter(recent, PlaceNotId(stored.id));
    var m := MoveToFront(recent, stored);
    assert m == [stored] + Take(others, MaxRecent - 1);
    if |others| + 1 > MaxRecent {
      assert Take(others, MaxRecent - 1) == others[..|others| - 1];
    }
  }

  /** The endpoint's update of its recent list: `findIndex` and `splice`
      of the entry with the place's id, `unshift` of the place, and `pop`
      once there are more than ten entries. */
  method SpliceToFront(list: seq<Place>, stored: Place) returns (updated: seq<Place>)
    requires |list| <= MaxRecent && NoDup(PlaceIds(list))
    ensures updated == MoveToFront(list, stored)
  {
    var existingIndex := FirstIndex(list, HasId(stored.id));
    var rest := list;
    if existingIndex.Some? {
      rest := RemoveAt(list, existingIndex.value);
    }
    SpliceLeavesOthers(list, stored.id, existingIndex, rest);
    UnshiftThenPop(list, stored);
    updated := [stored] + rest;
    if |updated| > MaxRecent {
      assert updated[..|updated| - 1] == [stored] + rest[..|rest| - 1];
      updated := updated[..|updated| - 1];
    }
  }

  /** The module-level state of the endpoint. */
  class PlaceStore {
    var storage: map<string, Place>
    var recent: seq<Place>

    /** At most ten recent places, with distinct ids. */
    ghost predicate Valid()
      reads this
    {
      |recent| <= MaxRecent && NoDup(PlaceIds(recent))
    }

    constructor ()
      ensures storage == map[] && recent == [] && Valid()
    {
      storage := map[];
      recent := [];
    }

    /** `POST`: a body that cannot be read (None) is answered with 500, and a
        missing place or id with 400; both change nothing. Otherwise the
        place is stored under its sanitised id and moved to the front of the
        recent list. */
    method Post(body: Option<PlaceRequest>) returns (resp: PostResponse)
      requires Valid()
      modifies this
      ensures Valid()
      ensures body.None? ==> resp == SaveFailed && storage == old(storage) && recent == old(recent)
      ensures body.Some? && (body.value.place.None? || body.value.place.value.id == "") ==>
        resp == InvalidPlace && storage == old(storage) && recent == old(recent)
      ensures body.Some? && body.value.place.Some? && body.value.place.value.id != "" ==>
        var stored := body.value.place.value.(id := Sanitize(body.value.place.value.id));
        && resp == Stored(stored.id)
        && storage == old(storage)[stored.id := stored]
        && recent == MoveToFront(old(recent), stored)
    {
      if body.None? {
        return SaveFailed;
      }
      var place := body.value.place;
      if place.None? || place.value.id == "" {
        return InvalidPlace;
      }
      var stored := place.value.(id := Sanitize(place.value.id));
      var updated := SpliceToFront(recent, stored);
      MoveToFrontKeepsUnique(recent, stored);
      storage := storage[stored.id := stored];
      recent := updated;
      return Stored(stored.id);
    }

    /** `GET` on the current state. */
    method Get(id: Option<string>) returns (r: GetResponse)
      ensures r == Lookup(storage, recent, id)
    {
      r := Lookup(storage, recent, id);
    }
  }

  /** After a place is posted, looking it up by the id it was posted with, or
      by the id it was stored under, finds it. */
  lemma PostThenLookup(storage: map<string, Place>, recent: seq<Place>, place: Place)
    requires place.id != ""
    ensures var stored := place.(id := Sanitize(place.id));
      var after := storage[stored.id := stored];
      && Lookup(after, recent, Some(place.id)).Found?
      && Lookup(after, recent, Some(place.id)).place == stored
      && (stored.id != "" ==> Lookup(after, recent, Some(stored.id)).place == stored)
  {
    var sid := Sanitize(place.id);
    var stored := place.(id := sid);
    var after := storage[sid := stored];
    LookupBySanitised(after, recent, place.id, stored);
    if sid != "" {
      SanitizeIdempotent(place.id);
      LookupBySanitised(after, recent, sid, stored);
    }
  }

  /** A lookup whose sanitised key is stored finds the entry under it. */
  lemma LookupBySanitised(storage: map<string, Place>, recent: seq<Place>, key: string, stored: Place)
    requires key != "" && Sanitize(key) in storage && storage[Sanitize(key)] == stored
    ensures Lookup(storage, recent, Some(key)).Found?
    ensures Lookup(storage, recent, Some(key)).place == stored
  {
  }
}
