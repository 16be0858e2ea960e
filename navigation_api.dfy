/** The navigation endpoint (app/api/navigation/route.ts): it turns a typed
    route into a Naver Map app link (`nmap://route/public?…`) or a T map app
    link (`tmap://route?…`). Percent-encoding (`encodeURIComponent`) is the
    parameter `enc`; a coordinate that is absent is interpolated as the text
    "undefined". */
module NavigationApi {
  import opened Common
  import opened Seqs
  import opened Text
  import opened Places
  import opened RouteSequence

  const NaverScheme := "nmap://route/public?"
  const TmapScheme := "tmap://route?"
  /** T map accepts at most this many pass points. */
  const MaxPassPoints := 5

  function IsStartPoint(p: RoutePoint): bool { p.role == Start }
  function IsEndPoint(p: RoutePoint): bool { p.role == End }
  function IsWaypointPoint(p: RoutePoint): bool { p.role == Waypoint }

  /** `routePoints.find(point => point.type === 'start')`, as a position. */
  function StartIndex(points: seq<RoutePoint>): (r: Option<nat>)
    ensures r.Some? ==> r.value < |points| && points[r.value].role == Start
    ensures r.Some? ==> forall j :: 0 <= j < r.value ==> points[j].role != Start
    ensures r.None? <==> forall i :: 0 <= i < |points| ==> points[i].role != Start
  {
    FirstIndex(points, IsStartPoint)
  }

  /** The destination: the first end-typed point, or else the last point when
      there are two or more. */
  function EndIndex(points: seq<RoutePoint>): (r: Option<nat>)
    ensures r.Some? ==> r.value < |points|
    ensures r.Some? && points[r.value].role == End ==> forall j :: 0 <= j < r.value ==> points[j].role != End
    ensures r.Some? && points[r.value].role != End ==>
      r.value == |points| - 1 && |points| > 1 && forall i :: 0 <= i < |points| ==> points[i].role != End
    ensures r.None? <==> |points| <= 1 && forall i :: 0 <= i < |points| ==> points[i].role != End
  {
    match FirstIndex(points, IsEndPoint)
    case Some(i) => Some(i)
    case None => if |points| > 1 then Some(|points| - 1) else None
  }

  /** `end && end !== start`: there is a destination and it is not the very
      point chosen as the start. */
  predicate HasDestination(points: seq<RoutePoint>)
  {
    EndIndex(points).Some? && EndIndex(points) != StartIndex(points)
  }

  /** `routePoints.filter(point => point.type === 'waypoint')`. */
  function Waypoints(points: seq<RoutePoint>): seq<RoutePoint>
  {
    Filter(points, IsWaypointPoint)
  }

  function NaverStartGroup(p: RoutePoint, enc: string -> string): string
  {
    "slat=" + Show(p.place.mapy) + "&slng=" + Show(p.place.mapx) + "&sname=" + enc(p.place.title)
  }

  function NaverDestinationGroup(p: RoutePoint, enc: string -> string): string
  {
    "dlat=" + Show(p.place.mapy) + "&dlng=" + Show(p.place.mapx) + "&dname=" + enc(p.place.title)
  }

  /** The group of the `n`-th waypoint (counted from 1). */
  function NaverWaypointGroup(n: nat, p: RoutePoint, enc: string -> string): string
  {
    var k := NatToString(n);
    "wp" + k + "lat=" + Show(p.place.mapy) + "&wp" + k + "lng=" + Show(p.place.mapx)
      + "&wp" + k + "name=" + enc(p.place.title)
  }

  /** All waypoint groups, numbered from 1 in list order, joined by '&'. */
  function NaverWaypointsParam(wps: seq<RoutePoint>, enc: string -> string): string
  {
    Join(seq(|wps|, k requires 0 <= k < |wps| => NaverWaypointGroup(k + 1, wps[k], enc)), "&")
  }

  /** The parameters of a Naver link, in their fixed order: start, destination,
      waypoints, then the travel mode. */
  function NaverParams(points: seq<RoutePoint>, enc: string -> string): seq<string>
  {
    var wps := Waypoints(points);
    (if StartIndex(points).Some? then [NaverStartGroup(points[StartIndex(points).value], enc)] else [])
    + (if HasDestination(points) then [NaverDestinationGroup(points[EndIndex(points).value], enc)] else [])
    + (if |wps| > 0 then [NaverWaypointsParam(wps, enc)] else [])
    + ["mode=car"]
  }

  function TmapStartGroup(p: RoutePoint, enc: string -> string): string
  {
    "startx=" + Show(p.place.mapx) + "&starty=" + Show(p.place.mapy) + "&startname=" + enc(p.place.title)
  }

  function TmapDestinationGroup(p: RoutePoint, enc: string -> string): string
  {
    "endx=" + Show(p.place.mapx) + "&endy=" + Show(p.place.mapy) + "&endname=" + enc(p.place.title)
  }

  /** The group of the `n`-th pass point (counted from 1). */
  function TmapPassGroup(n: nat, p: RoutePoint, enc: string -> string): string
  {
    var k := NatToString(n);
    "passx" + k + "=" + Show(p.place.mapx) + "&passy" + k + "=" + Show(p.place.mapy)
      + "&passname" + k + "=" + enc(p.place.title)
  }

  /** One pass group per waypoint, numbered from 1, pushed in list order. */
  function TmapPassGroups(wps: seq<RoutePoint>, enc: string -> string): (r: seq<string>)
    ensures |r| == |wps|
    decreases |wps|
  {
    if wps == [] then []
    else TmapPassGroups(wps[..|wps| - 1], enc) + [TmapPassGroup(|wps|, wps[|wps| - 1], enc)]
  }

  lemma PassGroupsExtend(wps: seq<RoutePoint>, i: nat, enc: string -> string)
    requires i < |wps|
    ensures TmapPassGroups(wps[..i + 1], enc) == TmapPassGroups(wps[..i], enc) + [TmapPassGroup(i + 1, wps[i], enc)]
  {
    assert wps[..i + 1][..i] == wps[..i];
  }

  /** The group at position `k` is that of waypoint `k`, numbered `k + 1`. */
  lemma {:induction false} PassGroupAt(wps: seq<RoutePoint>, k: nat, enc: string -> string)
    requires k < |wps|
    ensures TmapPassGroups(wps, enc)[k] == TmapPassGroup(k + 1, wps[k], enc)
    decreases |wps|
  {
    if k < |wps| - 1 {
      PassGroupAt(wps[..|wps| - 1], k, enc);
    }
  }

  /** The parameters of a T map link: start, destination, then a separate group
      for each of the first five waypoints. */
  function TmapParams(points: seq<RoutePoint>, enc: string -> string): seq<string>
  {
    TmapEnds(points, enc) + TmapPassGroups(Take(Waypoints(points), MaxPassPoints), enc)
  }

  /** The start and destination groups of a T map link, each when present. */
  function TmapEnds(points: seq<RoutePoint>, enc: string -> string): seq<string>
  {
    (if StartIndex(points).Some? then [TmapStartGroup(points[StartIndex(points).value], enc)] else [])
    + (if HasDestination(points) then [TmapDestinationGroup(points[EndIndex(points).value], enc)] else [])
  }

  /** `createNaverMapUri`: pushes the groups onto `params` and appends their
      '&'-join to the scheme. */
  method CreateNaverMapUri(points: seq<RoutePoint>, enc: string -> string) returns (url: string)
    ensures url == NaverScheme + Join(NaverParams(points, enc), "&")
  {
    var start := StartIndex(points);
    var waypoints := Waypoints(points);
    var end := EndIndex(points);
    url := NaverScheme;
    var params: seq<string> := [];
    if start.Some? {
      params := params + [NaverStartGroup(points[start.value], enc)];
    }
    if end.Some? && end != start {
      params := params + [NaverDestinationGroup(points[end.value], enc)];
    }
    if |waypoints| > 0 {
      params := params + [NaverWaypointsParam(waypoints, enc)];
    }
    params := params + ["mode=car"];
    assert params == NaverParams(points, enc);
    url := url + Join(params, "&");
  }

  /** `createTmapUri`: as above, with one pushed group per pass point in a
      `forEach` over at most five waypoints. */
  method CreateTmapUri(points: seq<RoutePoint>, enc: string -> string) returns (url: string)
    ensures url == TmapScheme + Join(TmapParams(points, enc), "&")
  {
    var start := StartIndex(points);
    var waypoints := Waypoints(points);
    var end := EndIndex(points);
    url := TmapScheme;
    var params: seq<string> := [];
    if start.Some? {
      params := params + [TmapStartGroup(points[start.value], enc)];
    }
    if end.Some? && end != start {
      params := params + [TmapDestinationGroup(points[end.value], enc)];
    }
    assert params == TmapEnds(points, enc);
    var limited := Take(waypoints, MaxPassPoints);
    ghost var base := params;
    var index := 0;
    while index < |limited|
      invariant 0 <= index <= |limited|
      invariant params == base + TmapPassGroups(limited[..index], enc)
    {
      var group := TmapPassGroup(index + 1, limited[index], enc);
      PassGroupsExtend(limited, index, enc);
      AppendOneAssoc(base, TmapPassGroups(limited[..index], enc), group);
      params := params + [group];
      index := index + 1;
    }
    assert limited[..index] == limited;
    url := url + Join(params, "&");
  }

  /** The body of a navigation request: an absent field is None. */
  datatype NavigationBody = NavigationBody(navigationType: Option<string>, routePoints: Option<seq<RoutePoint>>)

  datatype NavigationResponse = UriResponse(uri: string) | ErrorResponse(status: nat, error: string)

  const PointsRequired := "경로 포인트가 필요합니다."
  const UnsupportedType := "지원하지 않는 내비게이션 유형입니다."
  const BuildFailed := "내비게이션 URL 생성 중 오류가 발생했습니다."

  /** `POST /api/navigation`. `body` is None when the request body is not
      JSON, which the handler reports as a server error. */
  method NavigationPost(body: Option<NavigationBody>, enc: string -> string) returns (resp: NavigationResponse)
    ensures body.None? ==> resp == ErrorResponse(500, BuildFailed)
    ensures body.Some? && (body.value.routePoints.None? || body.value.routePoints.value == []) ==>
      resp == ErrorResponse(400, PointsRequired)
    ensures resp.UriResponse? <==>
      body.Some? && body.value.routePoints.Some? && body.value.routePoints.value != [] &&
      body.value.navigationType in {Some("naver"), Some("tmap")}
    ensures resp.UriResponse? && body.value.navigationType == Some("naver") ==>
      resp.uri == NaverScheme + Join(NaverParams(body.value.routePoints.value, enc), "&")
    ensures resp.UriResponse? && body.value.navigationType == Some("tmap") ==>
      resp.uri == TmapScheme + Join(TmapParams(body.value.routePoints.value, enc), "&")
    ensures resp.ErrorResponse? && body.Some? && body.value.routePoints.Some? && body.value.routePoints.value != [] ==>
      resp == ErrorResponse(400, UnsupportedType)
  {
    if body.None? {
      return ErrorResponse(500, BuildFailed);
    }
    var b := body.value;
    if b.routePoints.None? || |b.routePoints.value| == 0 {
      return ErrorResponse(400, PointsRequired);
    }
    if b.navigationType == Some("naver") {
      var uri := CreateNaverMapUri(b.routePoints.value, enc);
      return UriResponse(uri);
    }
    if b.navigationType == Some("tmap") {
      var uri := CreateTmapUri(b.routePoints.value, enc);
      return UriResponse(uri);
    }
    return ErrorResponse(400, UnsupportedType);
  }

  /** A Naver link always starts with its scheme and ends with the car mode. */
  lemma NaverUriShape(points: seq<RoutePoint>, enc: string -> string)
    ensures var uri := NaverScheme + Join(NaverParams(points, enc), "&");
      StartsWith(uri, NaverScheme) && EndsWith(uri, "mode=car")
  {
    var params := NaverParams(points, enc);
    assert params[|params| - 1] == "mode=car";
    PrefixedJoinEnds(NaverScheme, params, "&");
    var uri := NaverScheme + Join(params, "&");
    assert uri[..|NaverScheme|] == (uri[..|NaverScheme + params[0]|])[..|NaverScheme|];
  }

  /** A T map link starts with its scheme, and with the start group right after
      it when the route has a start point. */
  lemma TmapUriShape(points: seq<RoutePoint>, enc: string -> string)
    ensures var uri := TmapScheme + Join(TmapParams(points, enc), "&");
      && StartsWith(uri, TmapScheme)
      && (StartIndex(points).Some? ==>
            StartsWith(uri, TmapScheme + TmapStartGroup(points[StartIndex(points).value], enc)))
  {
    var params := TmapParams(points, enc);
    var j := Join(params, "&");
    assert (TmapScheme + j)[..|TmapScheme|] == TmapScheme;
    if StartIndex(points).Some? {
      var g := TmapStartGroup(points[StartIndex(points).value], enc);
      assert params[0] == g;
      JoinEnds(params, "&");
      assert (TmapScheme + j)[..|TmapScheme + g|] == TmapScheme + j[..|g|];
    }
  }

  /** On a route whose roles follow the positional rule, the start is the first
      point, the destination is the last point (when there are two or more),
      and the waypoints are exactly the points in between, in order. */
  lemma SelectionOnValidRoute(points: seq<RoutePoint>)
    requires RolesValid(points) && |points| >= 1
    ensures StartIndex(points) == Some(0)
    ensures EndIndex(points) == if |points| > 1 then Some(|points| - 1) else None
    ensures HasDestination(points) <==> |points| > 1
    ensures Waypoints(points) == if |points| > 1 then points[1..|points| - 1] else []
  {
    var n := |points|;
    assert points[0].role == Start;
    if n > 1 {
      assert points[n - 1].role == End;
      assert forall i :: 0 <= i < n - 1 ==> !IsEndPoint(points[i]);
      WaypointsOfValidRoute(points);
    } else {
      assert points == [points[0]];
      assert Filter(points[1..], IsWaypointPoint) == [];
    }
  }

  /** The waypoints of a well-tagged route of two or more points are its
      interior points. */
  lemma WaypointsOfValidRoute(points: seq<RoutePoint>)
    requires RolesValid(points) && |points| > 1
    ensures Waypoints(points) == points[1..|points| - 1]
  {
    var n := |points|;
    var mid := points[1..n - 1];
    var front := [points[0]] + mid;
    assert points == front + [points[n - 1]];
    FilterAppend(front, [points[n - 1]], IsWaypointPoint);
    FilterAppend([points[0]], mid, IsWaypointPoint);
    FilterKeepsAll(mid, IsWaypointPoint);
    assert Filter([points[0]], IsWaypointPoint) == [] by {
      assert [points[0]][1..] == [];
    }
    assert Filter([points[n - 1]], IsWaypointPoint) == [] by {
      assert [points[n - 1]][1..] == [];
    }
    assert Filter(front, IsWaypointPoint) == mid;
  }

  /** The Naver parameters of a well-tagged route: the first point's start
      group, the last point's destination group when there are two or more
      points, the interior points as waypoints 1, 2, … in order, then the mode.
      In particular a single-point route has no destination. */
  lemma NaverParamsOfValidRoute(points: seq<RoutePoint>, enc: string -> string)
    requires RolesValid(points) && |points| >= 1
    ensures NaverParams(points, enc) ==
      [NaverStartGroup(points[0], enc)]
      + (if |points| > 1 then [NaverDestinationGroup(points[|points| - 1], enc)] else [])
      + (if |points| > 2 then [NaverWaypointsParam(points[1..|points| - 1], enc)] else [])
      + ["mode=car"]
  {
    SelectionOnValidRoute(points);
  }

  /** The T map parameters carry one pass group per waypoint up to five, in
      order and numbered 1 to at most 5; waypoints past the fifth are dropped. */
  lemma TmapPassCap(points: seq<RoutePoint>, enc: string -> string)
    ensures var wps := Waypoints(points);
      var passes := if |wps| < MaxPassPoints then |wps| else MaxPassPoints;
      var head := (if StartIndex(points).Some? then 1 else 0) + (if HasDestination(points) then 1 else 0);
      && |TmapParams(points, enc)| == head + passes
      && forall k :: 0 <= k < passes ==> TmapParams(points, enc)[head + k] == TmapPassGroup(k + 1, wps[k], enc)
  {
    var wps := Waypoints(points);
    var ends := TmapEnds(points, enc);
    assert |ends| == (if StartIndex(points).Some? then 1 else 0) + (if HasDestination(points) then 1 else 0);
    assert TmapParams(points, enc) == ends + TmapPassGroups(Take(wps, MaxPassPoints), enc);
    PassGroupsAfter(ends, wps, enc);
  }

  /** Whatever precedes them, the capped pass groups follow in waypoint order. */
  lemma PassGroupsAfter(ends: seq<string>, wps: seq<RoutePoint>, enc: string -> string)
    ensures var passes := if |wps| < MaxPassPoints then |wps| else MaxPassPoints;
      var params := ends + TmapPassGroups(Take(wps, MaxPassPoints), enc);
      && |params| == |ends| + passes
      && forall k :: 0 <= k < passes ==> params[|ends| + k] == TmapPassGroup(k + 1, wps[k], enc)
  {
    var groups := TmapPassGroups(Take(wps, MaxPassPoints), enc);
    CappedPassGroups(wps, enc);
    AppendedAt(ends, groups);
  }

  /** The pass groups of the first five waypoints are numbered 1, 2, … in
      waypoint order. */
  lemma CappedPassGroups(wps: seq<RoutePoint>, enc: string -> string)
    ensures var passes := if |wps| < MaxPassPoints then |wps| else MaxPassPoints;
      var groups := TmapPassGroups(Take(wps, MaxPassPoints), enc);
      && |groups| == passes
      && forall k :: 0 <= k < passes ==> groups[k] == TmapPassGroup(k + 1, wps[k], enc)
  {
    var capped := Take(wps, MaxPassPoints);
    forall k | 0 <= k < |capped|
      ensures TmapPassGroups(capped, enc)[k] == TmapPassGroup(k + 1, wps[k], enc)
    {
      PassGroupAt(capped, k, enc);
    }
  }

  /** A single-point route, tagged as a start, yields only the start group:
      no destination and no pass points. */
  lemma TmapSinglePoint(p: RoutePoint, enc: string -> string)
    requires p.role == Start
    ensures TmapParams([p], enc) == [TmapStartGroup(p, enc)]
  {
    SelectionOnValidRoute([p]);
  }
}
