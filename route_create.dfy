/** The route-creation page (app/route/create/RouteCreateClient.tsx): it keeps
    the route, accepts the order the route list hands back, and guards the
    navigation, map and save actions. The logged-in user is reduced to its
    `userId` (None when nobody is logged in). */
module RouteCreate {
  import opened Common
  import opened Seqs
  import opened Text
  import opened Places
  import opened RouteSequence
  import opened NavigationApi
  import SaveRouteModal

  /** `handleReorder`: the order handed back by the route list is stored as
      it is, with no id check and no role recomputation. */
  function HandleReorder(route: seq<RoutePoint>, newOrder: seq<RoutePoint>): (r: seq<RoutePoint>)
    ensures r == newOrder
  {
    newOrder
  }

  /** The route list only ever hands back a moved and re-tagged copy, so the
      page's route stays well formed across a drag even though
      `handleReorder` checks nothing. */
  lemma DragThenReorderKeepsWellFormed(route: seq<RoutePoint>, source: nat, destination: nat)
    requires WellFormed(route) && source < |route| && destination < |route|
    ensures WellFormed(HandleReorder(route, Retag(Moved(route, source, destination))))
  {
    MoveAndRetagSpec(route, source, destination);
  }

  /** Stored on its own, an order may break the invariant: a list with a
      repeated place is accepted as it is. */
  lemma HandleReorderAcceptsDuplicates(p: Place)
    ensures var r := HandleReorder([], [RoutePoint(p, Start), RoutePoint(p, End)]);
      RolesValid(r) && !WellFormed(r)
  {
    var r := [RoutePoint(p, Start), RoutePoint(p, End)];
    assert Ids(r)[0] == Ids(r)[1];
  }

  /** Why an action was not carried out, or what it goes on with. */
  datatype Outcome<T> = EmptyRoute | NotMobile | LoginRequired | Cancelled | Failed | Proceed(value: T)

  /** `launchNavigation`: an empty route is refused, then a desktop browser;
      otherwise a T map request for the whole route. */
  function LaunchNavigation(route: seq<RoutePoint>, isMobile: bool): (o: Outcome<NavigationBody>)
    ensures o.EmptyRoute? <==> route == []
    ensures o.NotMobile? <==> route != [] && !isMobile
    ensures o.Proceed? <==> route != [] && isMobile
    ensures o.Proceed? ==> o.value == NavigationBody(Some("tmap"), Some(route))
  {
    if |route| < 1 then EmptyRoute
    else if !isMobile then NotMobile
    else Proceed(NavigationBody(Some("tmap"), Some(route)))
  }

  /** `viewNaverMap`: an empty route is refused; otherwise a Naver request. */
  function ViewNaverMap(route: seq<RoutePoint>): (o: Outcome<NavigationBody>)
    ensures o.EmptyRoute? <==> route == []
    ensures o.Proceed? <==> route != []
    ensures o.Proceed? ==> o.value == NavigationBody(Some("naver"), Some(route))
  {
    if |route| < 1 then EmptyRoute else Proceed(NavigationBody(Some("naver"), Some(route)))
  }

  /** Every request the page sends passes the endpoint's checks: it has route
      points and a supported type, so the endpoint answers with a link. */
  lemma PageRequestsAreAccepted(route: seq<RoutePoint>, isMobile: bool)
    ensures var o := LaunchNavigation(route, isMobile);
      o.Proceed? ==> (o.value.routePoints.Some? && o.value.routePoints.value != []
        && o.value.navigationType in {Some("naver"), Some("tmap")})
    ensures var o := ViewNaverMap(route);
      o.Proceed? ==> (o.value.routePoints.Some? && o.value.routePoints.value != []
        && o.value.navigationType in {Some("naver"), Some("tmap")})
  {
  }

  /** `openSaveModal`: an empty route is refused first, then a visitor who is
      not logged in; otherwise the dialog opens with the suggested name. */
  function OpenSaveModal(route: seq<RoutePoint>, user: Option<string>): (o: Outcome<string>)
    ensures o.EmptyRoute? <==> route == []
    ensures o.LoginRequired? <==> route != [] && user.None?
    ensures o.Proceed? <==> route != [] && user.Some?
    ensures o.Proceed? ==> o.value == DefaultRouteName(route) && o.value != ""
  {
    if |route| < 1 then EmptyRoute
    else if user.None? then LoginRequired
    else Proceed(DefaultRouteName(route))
  }

  /** A link as `handleSaveRoute` settles it: a link already known is kept
      without a request; otherwise the answer's `uri` or "" when the request
      answered, the (empty) old value when it answered with an error status,
      and None when the request threw, which aborts the save. */
  function SettleLink(current: string, fetch: SaveRouteModal.UriFetch): (link: Option<string>)
    ensures current != "" ==> link == Some(current)
    ensures current == "" ==> (link.None? <==> fetch.Threw?)
    ensures current == "" && link.Some? ==> link.value == SaveRouteModal.LinkFrom(fetch)
  {
    if current != "" then Some(current)
    else match fetch
      case Threw => None
      case NotOk => Some(current)
      case Ok(uri) => Some(OrElse(uri, ""))
  }

  /** `handleSaveRoute`: a visitor who is not logged in is refused first, then
      an empty route. An empty name is asked for with `prompt`, whose default
      text is the suggested name; a cancelled or empty answer stops the save.
      A link request that throws makes the save fail; once both links are
      settled the save request goes out. */
  function HandleSaveRoute(route: seq<RoutePoint>, user: Option<string>, routeName: string,
                           prompt: string -> Option<string>,
                           naverMapUri: string, naverFetch: SaveRouteModal.UriFetch,
                           tmapUri: string, tmapFetch: SaveRouteModal.UriFetch): (o: Outcome<SaveRouteModal.SaveRequest>)
    ensures o.LoginRequired? <==> user.None?
    ensures o.EmptyRoute? <==> user.Some? && route == []
    ensures o.Cancelled? <==> (user.Some? && route != [] && routeName == ""
      && !Truthy(prompt(DefaultRouteName(route))))
    ensures o.Failed? <==> (user.Some? && route != [] && (routeName != "" || Truthy(prompt(DefaultRouteName(route))))
      && (SettleLink(naverMapUri, naverFetch).None? || SettleLink(tmapUri, tmapFetch).None?))
    ensures o.Proceed? <==> (user.Some? && route != [] && (routeName != "" || Truthy(prompt(DefaultRouteName(route))))
      && SettleLink(naverMapUri, naverFetch).Some? && SettleLink(tmapUri, tmapFetch).Some?)
    ensures o.Proceed? ==> o.value.points == route && o.value.userId == user.value && o.value.name != ""
    ensures o.Proceed? ==> (Some(o.value.naverUri) == SettleLink(naverMapUri, naverFetch)
      && Some(o.value.tmapUri) == SettleLink(tmapUri, tmapFetch))
    ensures o.Proceed? && routeName != "" ==> o.value.name == routeName
    ensures o.Proceed? && routeName == "" ==> o.value.name == prompt(DefaultRouteName(route)).value
  {
    if user.None? then LoginRequired
    else if |route| < 1 then EmptyRoute
    else
      var answer := if routeName != "" then Some(routeName) else prompt(DefaultRouteName(route));
      if !Truthy(answer) then Cancelled
      else match (SettleLink(naverMapUri, naverFetch), SettleLink(tmapUri, tmapFetch))
        case (Some(n), Some(t)) => Proceed(SaveRouteModal.SaveRequest(answer.value, route, user.value, n, t))
        case _ => Failed
  }

  /** The page's two save guards run in opposite orders: on an empty route
      without a user, opening the dialog reports the empty route while saving
      reports the missing login. Every action refuses an empty route. */
  lemma GuardOrder(prompt: string -> Option<string>, n: string, nf: SaveRouteModal.UriFetch, t: string, tf: SaveRouteModal.UriFetch, user: Option<string>, isMobile: bool, name: string)
    ensures OpenSaveModal([], None).EmptyRoute?
    ensures HandleSaveRoute([], None, name, prompt, n, nf, t, tf).LoginRequired?
    ensures !LaunchNavigation([], isMobile).Proceed? && !ViewNaverMap([]).Proceed?
    ensures !OpenSaveModal([], user).Proceed? && !HandleSaveRoute([], user, name, prompt, n, nf, t, tf).Proceed?
  {
  }
}
