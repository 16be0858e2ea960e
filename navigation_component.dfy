/** The route editor of the navigation page (components/NavigationComponent.tsx):
    adding, removing and dragging route points, the typed-in custom place,
    the app and web links it opens itself, and the paging of search results. */
module NavigationComponent {
  import opened Common
  import opened Seqs
  import opened Text
  import opened Places
  import opened RouteSequence

  /** `addPlaceToRoute`: a duplicate id is ignored; otherwise the place is
      pushed onto a copy with a provisional role, then the new last point is
      made the end and the point before it, if it is not the first, a
      waypoint. Only those two roles are patched, so the result agrees with
      the full recompute only when the old roles were already right. */
  method AddPlaceToRoute(route: seq<RoutePoint>, place: Place) returns (r: AddResult)
    ensures r.AlreadyInRoute? <==> place.id in Ids(route)
    ensures r.Added? ==> PlacesOf(r.route) == PlacesOf(route) + [place]
    ensures r.Added? ==> forall i :: 0 <= i < |route| - 1 ==> r.route[i] == route[i]
    ensures r.Added? ==> r.route[|route|].role == RoleAt(|route|, |route| + 1)
    ensures RolesValid(route) ==> r == AddToRoute(route, place)
  {
    if exists i :: 0 <= i < |route| && route[i].place.id == place.id {
      return AlreadyInRoute;
    }
    var points := route;
    var role := if |points| == 0 then Start else if |points| == 1 then End else Waypoint;
    points := points + [RoutePoint(place, role)];
    if |points| >= 2 {
      points := points[|points| - 1 := points[|points| - 1].(role := End)];
      if |points| > 2 {
        points := points[|points| - 2 := points[|points| - 2].(role := Waypoint)];
      }
    }
    assert |points| == |route| + 1;
    assert forall i :: 0 <= i < |route| - 1 ==> points[i] == route[i];
    assert points[|route|] == RoutePoint(place, RoleAt(|route|, |points|));
    if RolesValid(route) {
      assert RolesValid(points);
      RetagFixesExactlyValid(points);
    }
    return Added(points);
  }

  /** Because the incremental add agrees with the full recompute on
      well-tagged routes, it keeps the route well formed. */
  lemma AddPlaceToRouteKeepsWellFormed(route: seq<RoutePoint>, place: Place, r: AddResult)
    requires WellFormed(route)
    requires r == AddToRoute(route, place)
    ensures r.Added? ==> WellFormed(r.route) && |r.route| == |route| + 1
    ensures r.AlreadyInRoute? ==> place.id in Ids(route)
  {
    AddToRouteKeepsWellFormed(route, place);
  }

  const CustomPlaceDescription := "사용자 지정 장소"

  /** `handleCustomPlaceAdd`: a name that is blank after trimming does
      nothing; otherwise a place titled with the trimmed name, with id
      "custom-" followed by a fresh `uuid`, is added and the input cleared. */
  method HandleCustomPlaceAdd(route: seq<RoutePoint>, name: string, uuid: string)
    returns (newRoute: seq<RoutePoint>, newName: string)
    ensures IsBlank(name) ==> newRoute == route && newName == name
    ensures !IsBlank(name) ==> newName == ""
    ensures !IsBlank(name) && ("custom-" + uuid) !in Ids(route) ==>
      PlacesOf(newRoute) == PlacesOf(route) + [BarePlace("custom-" + uuid, Trim(name), CustomPlaceDescription)]
    ensures !IsBlank(name) && ("custom-" + uuid) in Ids(route) ==> newRoute == route
    ensures !IsBlank(name) && RolesValid(route) ==>
      var a := AddToRoute(route, BarePlace("custom-" + uuid, Trim(name), CustomPlaceDescription));
      newRoute == (if a.Added? then a.route else route)
    ensures RolesValid(route) ==> RolesValid(newRoute)
    ensures WellFormed(route) ==> WellFormed(newRoute)
  {
    TrimEmptyIffBlank(name);
    if Trim(name) == "" {
      return route, name;
    }
    var custom := BarePlace("custom-" + uuid, Trim(name), CustomPlaceDescription);
    var added := AddPlaceToRoute(route, custom);
    newRoute := if added.Added? then added.route else route;
    newName := "";
    if WellFormed(route) {
      AddToRouteKeepsWellFormed(route, custom);
    }
  }

  /** `handleDragEnd`: with no drop destination nothing happens; otherwise the
      dragged point is moved and every role recomputed. */
  method HandleDragEnd(route: seq<RoutePoint>, source: nat, destination: Option<nat>)
    returns (r: seq<RoutePoint>)
    requires source < |route| && (destination.Some? ==> destination.value < |route|)
    ensures destination.None? ==> r == route
    ensures destination.Some? ==> r == Retag(Moved(route, source, destination.value))
  {
    if destination.None? {
      return route;
    }
    r := MoveAndRetag(route, source, destination.value);
  }

  /** A drop keeps the navigation route well formed. */
  lemma HandleDragEndKeepsWellFormed(route: seq<RoutePoint>, source: nat, destination: Option<nat>, r: seq<RoutePoint>)
    requires WellFormed(route)
    requires source < |route| && (destination.Some? ==> destination.value < |route|)
    requires destination.None? ==> r == route
    requires destination.Some? ==> r == Retag(Moved(route, source, destination.value))
    ensures WellFormed(r) && multiset(PlacesOf(r)) == multiset(PlacesOf(route))
  {
    if destination.Some? {
      MoveAndRetagSpec(route, source, destination.value);
    }
  }

  const TmapLaunchScheme := "tmap://route?startname="

  /** The segment a `forEach` step appends for interior point number `index`
      (counted from 0). */
  function PassNameSegment(index: nat, p: RoutePoint, enc: string -> string): string
  {
    "&passname" + NatToString(index) + "=" + enc(p.place.title)
  }

  /** The link once the first `count` interior points have been appended to
      `head`, each with its own index. */
  function PassNamesAppended(head: string, waypoints: seq<RoutePoint>, count: nat, enc: string -> string): (r: string)
    requires count <= |waypoints|
    ensures |head| <= |r| && r[..|head|] == head
  {
    if count == 0 then head
    else
      var before := PassNamesAppended(head, waypoints, count - 1, enc);
      assert (before + PassNameSegment(count - 1, waypoints[count - 1], enc))[..|head|] == before[..|head|];
      before + PassNameSegment(count - 1, waypoints[count - 1], enc)
  }

  /** The T map link of `launchTmapNavigation`: first point as `startname`,
      last point as `goalname`, interior points as `passname0`, `passname1`, …
      without coordinates and without a cap. */
  function TmapLaunchLink(route: seq<RoutePoint>, enc: string -> string): string
    requires |route| >= 2
  {
    var head := TmapLaunchScheme + enc(route[0].place.title) + "&goalname=" + enc(route[|route| - 1].place.title);
    PassNamesAppended(head, route[1..|route| - 1], |route| - 2, enc)
  }

  /** `launchTmapNavigation`: None when the route has fewer than two points
      (the user is alerted instead); otherwise the link, grown with `+=`. */
  method LaunchTmapNavigation(route: seq<RoutePoint>, enc: string -> string) returns (link: Option<string>)
    ensures link.None? <==> |route| < 2
    ensures link.Some? ==> link.value == TmapLaunchLink(route, enc)
  {
    if |route| < 2 {
      return None;
    }
    var startPoint := route[0];
    var endPoint := route[|route| - 1];
    var waypoints := route[1..|route| - 1];
    var scheme := TmapLaunchScheme + enc(startPoint.place.title);
    scheme := scheme + "&goalname=" + enc(endPoint.place.title);
    ghost var head := scheme;
    var index := 0;
    while index < |waypoints|
      invariant 0 <= index <= |waypoints|
      invariant scheme == PassNamesAppended(head, waypoints, index, enc)
    {
      scheme := scheme + "&passname" + NatToString(index) + "=" + enc(waypoints[index].place.title);
      index := index + 1;
    }
    return Some(scheme);
  }

  /** The T map launch link names the first point as the start and the last as
      the goal; a two-point route has no pass names at all, and a three-point
      route exactly one, `passname0`, for the middle point. */
  lemma TmapLaunchLinkShape(route: seq<RoutePoint>, enc: string -> string)
    requires |route| >= 2
    ensures StartsWith(TmapLaunchLink(route, enc),
      TmapLaunchScheme + enc(route[0].place.title) + "&goalname=" + enc(route[|route| - 1].place.title))
    ensures |route| == 2 ==>
      TmapLaunchLink(route, enc) == TmapLaunchScheme + enc(route[0].place.title) + "&goalname=" + enc(route[1].place.title)
    ensures |route| == 3 ==>
      TmapLaunchLink(route, enc) == TmapLaunchScheme + enc(route[0].place.title) + "&goalname=" + enc(route[2].place.title)
        + "&passname0=" + enc(route[1].place.title)
  {
    if |route| == 3 {
      var head := TmapLaunchScheme + enc(route[0].place.title) + "&goalname=" + enc(route[2].place.title);
      var interior := route[1..|route| - 1];
      assert interior[0] == route[1];
      assert NatToString(0) == "0";
      assert TmapLaunchLink(route, enc) == PassNamesAppended(head, interior, 1, enc);
      assert PassNamesAppended(head, interior, 1, enc)
        == PassNamesAppended(head, interior, 0, enc) + PassNameSegment(0, interior[0], enc);
    }
  }

  /** The label `viewOnNaverMap` gives the point at `index`. */
  function WebLabel(index: nat, n: nat): string
  {
    if index == 0 then "sname" else if index == n - 1 then "dname" else "waypoint" + NatToString(index - 1)
  }

  /** Different points of a route get different labels, so no parameter of the
      web link is given twice. */
  lemma WebLabelsDistinct(i: nat, j: nat, n: nat)
    requires i < n && j < n && i != j
    ensures WebLabel(i, n) != WebLabel(j, n)
  {
    // The first letter tells the start, the destination and the waypoints apart.
    var ci := if i == 0 then 's' else if i == n - 1 then 'd' else 'w';
    var cj := if j == 0 then 's' else if j == n - 1 then 'd' else 'w';
    assert WebLabel(i, n)[0] == ci;
    assert WebLabel(j, n)[0] == cj;
    if ci == cj {
      var a := NatToString(i - 1);
      var b := NatToString(j - 1);
      if "waypoint" + a == "waypoint" + b {
        assert ("waypoint" + a)[8..] == a;
        assert ("waypoint" + b)[8..] == b;
        NatToStringInjective(i - 1, j - 1);
      }
    }
  }

  const NaverWebPrefix := "https://map.naver.com/v5/directions/?"
  const NaverWebSuffix := "&pathType=0"

  /** The `label=title` parameters of `viewOnNaverMap`, one per point in order. */
  function WebParams(route: seq<RoutePoint>, enc: string -> string): (params: seq<string>)
    ensures |params| == |route|
    ensures forall i :: 0 <= i < |route| ==> params[i] == WebLabel(i, |route|) + "=" + enc(route[i].place.title)
  {
    seq(|route|, i requires 0 <= i < |route| => WebLabel(i, |route|) + "=" + enc(route[i].place.title))
  }

  /** `viewOnNaverMap`: None when the route has fewer than two points;
      otherwise the web link listing every point under its label: the first
      as `sname`, the last as `dname`, and interior point `k` as
      `waypoint{k-1}`. */
  function NaverWebLink(route: seq<RoutePoint>, enc: string -> string): (link: Option<string>)
    ensures link.None? <==> |route| < 2
    ensures link.Some? ==> StartsWith(link.value, NaverWebPrefix + "sname=" + enc(route[0].place.title))
    ensures link.Some? ==> EndsWith(link.value, "&dname=" + enc(route[|route| - 1].place.title) + NaverWebSuffix)
    ensures link.Some? ==> forall k :: 0 < k < |route| - 1 ==>
      Contains(link.value, "&waypoint" + NatToString(k - 1) + "=" + enc(route[k].place.title))
  {
    if |route| < 2 then None
    else
      var link := NaverWebPrefix + Join(WebParams(route, enc), "&") + NaverWebSuffix;
      WebLinkLabels(route, enc);
      Some(link)
  }

  /** Where each point's parameter sits in the web link. */
  lemma WebLinkLabels(route: seq<RoutePoint>, enc: string -> string)
    requires |route| >= 2
    ensures var link := NaverWebPrefix + Join(WebParams(route, enc), "&") + NaverWebSuffix;
      && StartsWith(link, NaverWebPrefix + "sname=" + enc(route[0].place.title))
      && EndsWith(link, "&dname=" + enc(route[|route| - 1].place.title) + NaverWebSuffix)
      && forall k :: 0 < k < |route| - 1 ==>
           Contains(link, "&waypoint" + NatToString(k - 1) + "=" + enc(route[k].place.title))
  {
    WebLinkEndpoints(route, enc);
    forall k | 0 < k < |route| - 1
      ensures Contains(NaverWebPrefix + Join(WebParams(route, enc), "&") + NaverWebSuffix,
                       "&waypoint" + NatToString(k - 1) + "=" + enc(route[k].place.title))
    {
      WebLinkWaypoint(route, enc, k);
    }
  }

  /** The web link starts with the first point as `sname` and ends with the
      last point as `dname`. */
  lemma WebLinkEndpoints(route: seq<RoutePoint>, enc: string -> string)
    requires |route| >= 2
    ensures var link := NaverWebPrefix + Join(WebParams(route, enc), "&") + NaverWebSuffix;
      && StartsWith(link, NaverWebPrefix + "sname=" + enc(route[0].place.title))
      && EndsWith(link, "&dname=" + enc(route[|route| - 1].place.title) + NaverWebSuffix)
  {
    var params := WebParams(route, enc);
    var first := enc(route[0].place.title);
    var last := enc(route[|route| - 1].place.title);
    assert params[0] == "sname=" + first;
    assert params[|route| - 1] == "dname=" + last;
    EndpointParams(params[0], first, params[|route| - 1], last);
    WebLinkEnds(params, "&", NaverWebPrefix, NaverWebSuffix,
                NaverWebPrefix + "sname=" + first, "&dname=" + last + NaverWebSuffix);
  }

  /** Interior point `k` of the web link appears as `waypoint{k-1}`. */
  lemma WebLinkWaypoint(route: seq<RoutePoint>, enc: string -> string, k: nat)
    requires 0 < k < |route| - 1
    ensures Contains(NaverWebPrefix + Join(WebParams(route, enc), "&") + NaverWebSuffix,
                     "&waypoint" + NatToString(k - 1) + "=" + enc(route[k].place.title))
  {
    var params := WebParams(route, enc);
    var number := NatToString(k - 1);
    var title := enc(route[k].place.title);
    assert params[k] == "waypoint" + number + "=" + title;
    WaypointParam(params[k], number, title);
    WebLinkContains(params, "&", NaverWebPrefix, NaverWebSuffix, k, "&waypoint" + number + "=" + title);
  }

  /** The start parameter behind the prefix and the destination parameter
      behind its separator, regrouped. */
  lemma EndpointParams(start: string, first: string, destination: string, last: string)
    requires start == "sname=" + first && destination == "dname=" + last
    ensures NaverWebPrefix + start == NaverWebPrefix + "sname=" + first
    ensures "&" + destination + NaverWebSuffix == "&dname=" + last + NaverWebSuffix
  {
    AppendAssoc(NaverWebPrefix, "sname=", first);
    AppendAssoc("&", "dname=", last);
  }

  /** A waypoint parameter behind its separator, regrouped. */
  lemma WaypointParam(param: string, number: string, title: string)
    requires param == "waypoint" + number + "=" + title
    ensures "&" + param == "&waypoint" + number + "=" + title
  {
    AppendAssoc("&", "waypoint" + number + "=", title);
    AppendAssoc("&", "waypoint" + number, "=");
    AppendAssoc("&", "waypoint", number);
  }

  /** A link framing a join starts with the first part and ends with the
      separator, the last part and the frame's end. */
  lemma WebLinkEnds(params: seq<string>, sep: string, prefix: string, suffix: string, head: string, tail: string)
    requires |params| >= 2
    requires head == prefix + params[0] && tail == sep + params[|params| - 1] + suffix
    ensures StartsWith(prefix + Join(params, sep) + suffix, head)
    ensures EndsWith(prefix + Join(params, sep) + suffix, tail)
  {
    var joined := Join(params, sep);
    var link := prefix + joined + suffix;
    JoinEnds(params, sep);
    JoinEndsAfterSep(params, sep);
    var last := sep + params[|params| - 1];
    assert link[..|prefix| + |params[0]|] == prefix + joined[..|params[0]|];
    assert link[|link| - |last + suffix|..] == joined[|joined| - |last|..] + suffix;
  }

  /** A link framing a join holds every later part behind its separator. */
  lemma WebLinkContains(params: seq<string>, sep: string, prefix: string, suffix: string, k: nat, part: string)
    requires 1 <= k < |params| && part == sep + params[k]
    ensures Contains(prefix + Join(params, sep) + suffix, part)
  {
    JoinContainsPart(params, sep, k);
    ContainsWithin(prefix, Join(params, sep), suffix, sep + params[k]);
  }

  /** Results shown on the navigation page, and the paging state behind them. */
  datatype SearchState = SearchState(results: seq<Place>, page: nat, hasMore: bool, loading: bool, query: string)

  const ItemsPerPage := 9

  /** The 1-based index of the first result `loadMore` asks for, or None when
      it does not ask (a load is running, nothing more is announced, or there
      is no query). */
  function LoadMoreStart(s: SearchState): (start: Option<nat>)
    ensures start.Some? <==> !s.loading && s.hasMore && s.query != ""
    ensures start.Some? ==> start.value == (s.page + 1) * ItemsPerPage + 1
  {
    if s.loading || !s.hasMore || s.query == "" then None
    else Some((s.page + 1) * ItemsPerPage + 1)
  }

  /** What came back from the blog search, already converted to places. */
  datatype SearchResponse = Failed | Fetched(items: seq<Place>, total: nat)

  /** The state after `loadMore` received its response: new items are appended
      and the page advanced; an empty or failed response ends the paging. */
  function LoadMoreDone(s: SearchState, response: SearchResponse): (t: SearchState)
    ensures t.loading == false && t.query == s.query
    ensures response.Fetched? && response.items != [] ==>
      t.results == s.results + response.items && t.page == s.page + 1
      && (t.hasMore <==> |t.results| < response.total)
    ensures !(response.Fetched? && response.items != []) ==>
      t.results == s.results && t.page == s.page && !t.hasMore
  {
    match response
    case Fetched(items, total) =>
      if |items| > 0 then
        var newResults := s.results + items;
        SearchState(newResults, s.page + 1, |items| > 0 && |newResults| < total, false, s.query)
      else s.(hasMore := false, loading := false)
    case Failed => s.(hasMore := false, loading := false)
  }

  /** Consecutive successful loads ask for consecutive blocks: the next
      request starts exactly one page after the previous one, so no block of
      results is skipped or asked for twice. */
  lemma LoadMoreContiguous(s: SearchState, items: seq<Place>, total: nat)
    requires LoadMoreStart(s).Some? && items != []
    ensures var t := LoadMoreDone(s, Fetched(items, total));
      LoadMoreStart(t).Some? ==>
        LoadMoreStart(t).value == LoadMoreStart(s).value + ItemsPerPage
  {
  }
}
