/** The favorites endpoint (app/api/favorites/route.ts): an in-memory map
    from place id to place. A JavaScript `Map` iterates in insertion order,
    so the store keeps the key order beside the entries. */
module FavoritesApi {
  import opened Common
  import opened Seqs
  import opened Text
  import opened Places

  datatype PostResponse = Saved(placeId: string) | InvalidPlace | SaveFailed
  datatype DeleteResponse = Deleted(removed: bool) | IdRequired

  class FavoritesStore {
    var order: seq<string>
    var entries: map<string, Place>

    /** The order lists every key exactly once. */
    ghost predicate Valid()
      reads this
    {
      NoDup(order) && (forall k :: k in entries <==> k in order)
    }

    constructor ()
      ensures order == [] && entries == map[] && Valid()
    {
      order := [];
      entries := map[];
    }

    /** `POST`: a body that cannot be read (None) is answered with 500, and a
        missing place or id with 400; both change nothing. Otherwise the
        place is stored under its id, replacing any earlier entry, which
        keeps its place in the order. */
    method Post(body: Option<PlaceRequest>) returns (resp: PostResponse)
      requires Valid()
      modifies this
      ensures Valid()
      ensures body.None? ==> resp == SaveFailed && entries == old(entries) && order == old(order)
      ensures body.Some? && (body.value.place.None? || body.value.place.value.id == "") ==>
        resp == InvalidPlace && entries == old(entries) && order == old(order)
      ensures body.Some? && body.value.place.Some? && body.value.place.value.id != "" ==>
        var p := body.value.place.value;
        && resp == Saved(p.id)
        && entries == old(entries)[p.id := p]
        && order == if p.id in old(entries) then old(order) else old(order) + [p.id]
    {
      if body.None? {
        return SaveFailed;
      }
      var place := body.value.place;
      if place.None? || place.value.id == "" {
        return InvalidPlace;
      }
      var p := place.value;
      if p.id !in entries {
        order := order + [p.id];
      }
      entries := entries[p.id := p];
      return Saved(p.id);
    }

    /** `DELETE`: a missing id is refused; otherwise the answer says whether
        the id was present, and afterwards it is not. */
    method Delete(id: Option<string>) returns (resp: DeleteResponse)
      requires Valid()
      modifies this
      ensures Valid()
      ensures !Truthy(id) ==> resp == IdRequired && entries == old(entries) && order == old(order)
      ensures Truthy(id) ==>
        && resp == Deleted(id.value in old(entries))
        && entries == old(entries) - {id.value}
        && order == Filter(old(order), Other(id.value))
    {
      if !Truthy(id) {
        return IdRequired;
      }
      var key := id.value;
      var existed := key in entries;
      FilterMembers(order, Other(key));
      FilterSubMultiset(order, Other(key));
      NoDupSubMultiset(order, Filter(order, Other(key)));
      entries := entries - {key};
      order := Filter(order, Other(key));
      return Deleted(existed);
    }

    /** `GET`: `Array.from(favoritesStorage.values())`, in insertion order. */
    method GetAll() returns (favorites: seq<Place>)
      requires Valid()
      ensures |favorites| == |order|
      ensures forall i :: 0 <= i < |order| ==> favorites[i] == entries[order[i]]
      ensures forall p :: p in favorites <==> exists k :: k in entries && entries[k] == p
    {
      favorites := [];
      var i := 0;
      while i < |order|
        invariant 0 <= i <= |order|
        invariant |favorites| == i
        invariant forall j :: 0 <= j < i ==> favorites[j] == entries[order[j]]
      {
        favorites := favorites + [entries[order[i]]];
        i := i + 1;
      }
      forall p | p in favorites ensures exists k :: k in entries && entries[k] == p {
        var j :| 0 <= j < |favorites| && favorites[j] == p;
        assert order[j] in entries;
      }
      forall p | (exists k :: k in entries && entries[k] == p) ensures p in favorites {
        var k :| k in entries && entries[k] == p;
        var j :| 0 <= j < |order| && order[j] == k;
        assert favorites[j] == p;
      }
    }
  }

  /** Deleting an id that is not stored changes nothing. */
  lemma DeleteAbsentIsNoop(order: seq<string>, entries: map<string, Place>, id: string)
    requires forall k :: k in entries <==> k in order
    requires id !in entries
    ensures entries - {id} == entries
    ensures Filter(order, Other(id)) == order
  {
    FilterKeepsAll(order, Other(id));
  }
}
