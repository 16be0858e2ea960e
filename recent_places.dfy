/** The "recent places" list: most recent first, one entry per id, at most
    ten entries. The home page keeps it in the browser (app/page.tsx) and
    the places endpoint keeps one in memory (app/api/places/route.ts). */
module RecentPlaces {
  import opened Common
  import opened Seqs
  import opened Text
  import opened Places

  const MaxRecent := 10

  /** `[place, ...recent.filter(p => p.id !== place.id)].slice(0, 10)`: the
      place goes first, any older entry with its id is dropped, the others
      keep their order, and the list is cut to ten. */
  function MoveToFront(recent: seq<Place>, place: Place): (r: seq<Place>)
    ensures 1 <= |r| <= MaxRecent && r[0] == place
    ensures forall i :: 1 <= i < |r| ==> r[i].id != place.id && r[i] in recent
    ensures r == [place] + Take(Filter(recent, PlaceNotId(place.id)), MaxRecent - 1)
  {
    var f := Filter(recent, PlaceNotId(place.id));
    var r := Take([place] + f, MaxRecent);
    FilterMembers(recent, PlaceNotId(place.id));
    assert r == [place] + Take(f, MaxRecent - 1);
    assert forall i :: 1 <= i < |r| ==> r[i] == f[i - 1];
    r
  }

  /** A list with unique ids keeps unique ids. */
  lemma MoveToFrontKeepsUnique(recent: seq<Place>, place: Place)
    requires NoDup(PlaceIds(recent))
    ensures NoDup(PlaceIds(MoveToFront(recent, place)))
  {
    var id := place.id;
    var f := Filter(recent, PlaceNotId(id));
    var ids := PlaceIds(f);
    assert NoDup(ids) by {
      MapFilter(recent, PlaceId, PlaceNotId(id), Other(id));
      FilterSubMultiset(PlaceIds(recent), Other(id));
      NoDupSubMultiset(PlaceIds(recent), Filter(PlaceIds(recent), Other(id)));
    }
    var r := MoveToFront(recent, place);
    forall i, j | 0 <= i < j < |r| ensures PlaceIds(r)[i] != PlaceIds(r)[j] {
      assert r[j] == f[j - 1] && ids[j - 1] == f[j - 1].id;
      if i > 0 {
        assert r[i] == f[i - 1] && ids[i - 1] == f[i - 1].id;
      }
    }
  }

  /** Choosing the same place twice in a row changes nothing the second time. */
  lemma MoveToFrontIdempotent(recent: seq<Place>, place: Place)
    ensures MoveToFront(MoveToFront(recent, place), place) == MoveToFront(recent, place)
  {
    var r := MoveToFront(recent, place);
    assert r == [place] + r[1..];
    FilterAppend([place], r[1..], PlaceNotId(place.id));
    FilterKeepsAll(r[1..], PlaceNotId(place.id));
  }
}
