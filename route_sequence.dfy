/** The ordered route: a sequence of route points whose roles follow their
    positions. The operations shared by the route editors (the navigation
    page, the route-creation page and the route list) are stated here once. */
module RouteSequence {
  import opened Common
  import opened Seqs
  import opened Text
  import opened Places

  /** The role a point gets from its position `i` in a route of `n` points:
      the first is the start, the last is the end once there are two or more,
      everything else is a waypoint. */
  function RoleAt(i: nat, n: nat): Role
  {
    if i == 0 then Start else if i == n - 1 && n > 1 then End else Waypoint
  }

  /** Every point carries the role its position gives it. */
  predicate RolesValid(route: seq<RoutePoint>)
  {
    forall i :: 0 <= i < |route| ==> route[i].role == RoleAt(i, |route|)
  }

  /** The positional rule, spelled out: the first point is the start, the last
      point of a route of two or more is the end, and the points in between are
      waypoints. */
  lemma RolesValidShape(route: seq<RoutePoint>)
    ensures RolesValid(route) <==>
      (|route| >= 1 ==> route[0].role == Start) &&
      (|route| >= 2 ==> route[|route| - 1].role == End) &&
      (forall i :: 0 < i < |route| - 1 ==> route[i].role == Waypoint)
  {
  }

  function PointPlace(p: RoutePoint): Place
  {
    p.place
  }

  function PointId(p: RoutePoint): string
  {
    p.place.id
  }

  /** The places of a route, in order, without their roles. */
  function PlacesOf(route: seq<RoutePoint>): seq<Place>
  {
    Map(route, PointPlace)
  }

  /** The ids of a route, in order. */
  function Ids(route: seq<RoutePoint>): seq<string>
  {
    Map(route, PointId)
  }

  /** Routes with the same places have the same ids. */
  lemma SamePlacesSameIds(a: seq<RoutePoint>, b: seq<RoutePoint>)
    requires PlacesOf(a) == PlacesOf(b)
    ensures Ids(a) == Ids(b)
  {
    assert |a| == |PlacesOf(a)| == |b|;
    forall i | 0 <= i < |a| ensures Ids(a)[i] == Ids(b)[i] {
      assert PlacesOf(a)[i] == PlacesOf(b)[i];
    }
  }

  /** The invariant the editors keep: roles follow positions and no place
      appears twice. */
  predicate WellFormed(route: seq<RoutePoint>)
  {
    RolesValid(route) && NoDup(Ids(route))
  }

  /** `items.map((item, index) => ({ ...item, type }))` with the positional
      role: the places stay, the roles are re-derived. */
  function Retag(route: seq<RoutePoint>): (r: seq<RoutePoint>)
    ensures RolesValid(r)
    ensures PlacesOf(r) == PlacesOf(route)
  {
    seq(|route|, i requires 0 <= i < |route| => route[i].(role := RoleAt(i, |route|)))
  }

  /** Re-deriving the roles changes nothing exactly when the roles were right. */
  lemma RetagFixesExactlyValid(route: seq<RoutePoint>)
    ensures Retag(route) == route <==> RolesValid(route)
  {
    if RolesValid(route) {
      assert forall i :: 0 <= i < |route| ==> Retag(route)[i] == route[i];
    }
  }

  /** The roles of the initial places, where a point past the first is the end
      when it is the last one. */
  function InitialRoute(places: seq<Place>): (r: seq<RoutePoint>)
    ensures RolesValid(r)
    ensures PlacesOf(r) == places
    ensures |places| == 1 ==> r == [RoutePoint(places[0], Start)]
  {
    seq(|places|, i requires 0 <= i < |places| =>
      RoutePoint(places[i], if i == 0 then Start else if i == |places| - 1 && i > 0 then End else Waypoint))
  }

  /** The outcome of adding a place to a route. */
  datatype AddResult = Added(route: seq<RoutePoint>) | AlreadyInRoute

  /** Adding a place: refused when its id is already in the route, otherwise
      the place is appended and every role recomputed. */
  function AddToRoute(route: seq<RoutePoint>, place: Place): (r: AddResult)
    ensures r.AlreadyInRoute? <==> place.id in Ids(route)
    ensures r.Added? ==> RolesValid(r.route) && PlacesOf(r.route) == PlacesOf(route) + [place]
  {
    if exists i :: 0 <= i < |route| && route[i].place.id == place.id then AlreadyInRoute
    else
      var provisional := if |route| == 0 then Start else if |route| == 1 then End else Waypoint;
      Added(Retag(route + [RoutePoint(place, provisional)]))
  }

  /** An accepted add keeps the route well formed and puts the new place last. */
  lemma AddToRouteKeepsWellFormed(route: seq<RoutePoint>, place: Place)
    requires WellFormed(route)
    ensures AddToRoute(route, place).Added? ==>
      var r := AddToRoute(route, place).route;
      WellFormed(r) && |r| == |route| + 1 && r[|route|] == RoutePoint(place, RoleAt(|route|, |r|))
  {
    var a := AddToRoute(route, place);
    if a.Added? {
      var r := a.route;
      var appended := route + [RoutePoint(place, Start)];
      assert PlacesOf(r) == PlacesOf(appended);
      SamePlacesSameIds(r, appended);
      assert Ids(appended) == Ids(route) + [place.id];
      assert r[|route|].place == PlacesOf(r)[|route|] == place;
    }
  }

  function NotId(id: string): RoutePoint -> bool
  {
    (p: RoutePoint) => p.place.id != id
  }

  /** Removing a place: every point with that id goes, the others keep their
      order, and the roles are recomputed. */
  function RemoveFromRoute(route: seq<RoutePoint>, id: string): (r: seq<RoutePoint>)
    ensures RolesValid(r)
    ensures id !in Ids(r)
    ensures PlacesOf(r) == Filter(PlacesOf(route), PlaceNotId(id))
  {
    var kept := Filter(route, NotId(id));
    MapFilter(route, PointPlace, NotId(id), PlaceNotId(id));
    Retag(kept)
  }

  /** The ids left by a removal are the old ids without the removed one. */
  lemma RemoveFromRouteIds(route: seq<RoutePoint>, id: string)
    ensures Ids(RemoveFromRoute(route, id)) == Filter(Ids(route), Other(id))
  {
    var kept := Filter(route, NotId(id));
    MapFilter(route, PointId, NotId(id), Other(id));
    SamePlacesSameIds(RemoveFromRoute(route, id), kept);
  }

  /** Removing an id that is not in a well-tagged route changes nothing. */
  lemma RemoveAbsentIsNoop(route: seq<RoutePoint>, id: string)
    requires RolesValid(route) && id !in Ids(route)
    ensures RemoveFromRoute(route, id) == route
  {
    assert forall i :: 0 <= i < |route| ==> Ids(route)[i] == route[i].place.id;
    FilterKeepsAll(route, NotId(id));
    RetagFixesExactlyValid(route);
  }

  /** Removal keeps the route well formed, and every other place keeps all of
      its occurrences. */
  lemma RemoveFromRouteKeepsWellFormed(route: seq<RoutePoint>, id: string)
    requires WellFormed(route)
    ensures WellFormed(RemoveFromRoute(route, id))
    ensures forall x :: x != id ==>
      multiset(Ids(RemoveFromRoute(route, id)))[x] == multiset(Ids(route))[x]
  {
    RemoveFromRouteIds(route, id);
    FilterSubMultiset(Ids(route), Other(id));
    NoDupSubMultiset(Ids(route), Filter(Ids(route), Other(id)));
    forall x | x != id
      ensures multiset(Ids(RemoveFromRoute(route, id)))[x] == multiset(Ids(route))[x]
    {
      FilterCount(Ids(route), Other(id), x);
    }
  }

  /** `items.splice(source, 1)` on an array: the items after `source` move
      one place to the left; the last slot keeps its old value. */
  method CloseGap(items: array<RoutePoint>, source: nat)
    requires source < items.Length
    modifies items
    ensures items[..items.Length - 1] == RemoveAt(old(items[..]), source)
  {
    ghost var before := items[..];
    ghost var rest := RemoveAt(before, source);
    var k := source;
    while k < items.Length - 1
      invariant source <= k <= items.Length - 1
      invariant items[..k] == rest[..k]
      invariant items[k..] == before[k..]
    {
      items[k] := items[k + 1];
      k := k + 1;
    }
  }

  /** `items.splice(destination, 0, moving)` on an array whose last slot is
      free: the items from `destination` on move one place to the right and
      `moving` fills the gap. */
  method OpenGap(items: array<RoutePoint>, destination: nat, moving: RoutePoint)
    requires destination < items.Length
    modifies items
    ensures items[..] == InsertAt(old(items[..items.Length - 1]), destination, moving)
  {
    ghost var rest := items[..items.Length - 1];
    var k := items.Length - 1;
    while k > destination
      invariant destination <= k <= items.Length - 1
      invariant items[..k] == rest[..k]
      invariant items[k + 1..] == rest[k..]
    {
      items[k] := items[k - 1];
      k := k - 1;
    }
    items[destination] := moving;
    assert items[..] == items[..destination] + [moving] + items[destination + 1..];
  }

  /** The drop of a drag: `items.splice(source, 1)` then
      `items.splice(destination, 0, moved)` on a copy of the route, followed by
      re-deriving the roles. The copy is an array shifted in place. */
  method MoveAndRetag(route: seq<RoutePoint>, source: nat, destination: nat) returns (r: seq<RoutePoint>)
    requires source < |route| && destination < |route|
    ensures r == Retag(Moved(route, source, destination))
  {
    var n := |route|;
    var items := new RoutePoint[n](i requires 0 <= i < n => route[i]);
    assert items[..] == route;
    var moving := items[source];
    CloseGap(items, source);
    OpenGap(items, destination, moving);
    r := Retag(items[..]);
  }

  /** What a drop promises: the route keeps its length and its places, the
      dragged place lands at the destination, the other places keep their
      relative order, the roles follow the new positions, and a well-formed
      route stays well formed. */
  lemma MoveAndRetagSpec(route: seq<RoutePoint>, source: nat, destination: nat)
    requires source < |route| && destination < |route|
    ensures var r := Retag(Moved(route, source, destination));
      && |r| == |route|
      && r[destination].place == route[source].place
      && RemoveAt(PlacesOf(r), destination) == RemoveAt(PlacesOf(route), source)
      && multiset(PlacesOf(r)) == multiset(PlacesOf(route))
      && RolesValid(r)
      && (NoDup(Ids(route)) ==> WellFormed(r))
  {
    var m := Moved(route, source, destination);
    var r := Retag(m);
    MapMoved(route, PointPlace, source, destination);
    MapMoved(route, PointId, source, destination);
    MovedSpec(PlacesOf(route), source, destination);
    MovedSpec(Ids(route), source, destination);
    SamePlacesSameIds(r, m);
    assert r[destination].place == PlacesOf(r)[destination];
    if NoDup(Ids(route)) {
      NoDupSubMultiset(Ids(route), Ids(r));
    }
  }

  /** The suggested route name: the first title and a space, followed by
      "외 {n-1}곳" ("and n-1 more places") when there are several points;
      empty for an empty route. */
  function DefaultRouteName(route: seq<RoutePoint>): (name: string)
    ensures |route| == 0 <==> name == ""
    ensures |route| >= 1 ==> StartsWith(name, route[0].place.title + " ")
  {
    if |route| > 0 then
      route[0].place.title + " " + (if |route| > 1 then "외 " + NatToString(|route| - 1) + "곳" else "")
    else ""
  }

  /** The suggested name tells how many points a route has: two routes with
      the same first place and the same suggested name have the same length. */
  lemma DefaultRouteNameDeterminesCount(a: seq<RoutePoint>, b: seq<RoutePoint>)
    requires |a| >= 1 && |b| >= 1 && a[0].place.title == b[0].place.title
    requires DefaultRouteName(a) == DefaultRouteName(b)
    ensures |a| == |b|
  {
    var head := a[0].place.title + " ";
    if |a| > 1 && |b| > 1 {
      var na := NatToString(|a| - 1);
      var nb := NatToString(|b| - 1);
      assert head + ("외 " + na + "곳") == head + ("외 " + nb + "곳");
      assert ("외 " + na + "곳")[2..|na| + 2] == na;
      assert ("외 " + nb + "곳")[2..|nb| + 2] == nb;
      assert |na| == |nb|;
      NatToStringInjective(|a| - 1, |b| - 1);
    }
  }
}
