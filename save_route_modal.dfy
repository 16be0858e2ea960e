/** The save dialog (components/SaveRouteModal.tsx): the suggested name, the
    checks before saving, the two link requests, and the normalised request
    that is sent. The logged-in user is reduced to its `userId` (None when
    nobody is logged in). */
module SaveRouteModal {
  import opened Common
  import opened Seqs
  import opened Text
  import opened Places
  import opened RouteSequence

  /** How a request to the navigation endpoint ended: it threw, answered with
      an error status, or answered with a body whose `uri` may be absent. */
  datatype UriFetch = Threw | NotOk | Ok(uri: Option<string>)

  /** The request that stores a route. */
  datatype SaveRequest = SaveRequest(
    name: string, points: seq<RoutePoint>, userId: string, naverUri: string, tmapUri: string)

  /** The name field after the dialog opens: the suggested name when it opens
      on a non-empty route, otherwise whatever was there. */
  function NameOnOpen(isOpen: bool, route: seq<RoutePoint>, current: string): (name: string)
    ensures !isOpen || route == [] ==> name == current
    ensures isOpen && route != [] ==> name == DefaultRouteName(route) && name != ""
  {
    if isOpen && |route| > 0 then DefaultRouteName(route) else current
  }

  /** A link as the dialog keeps it: the `uri` of a successful answer when it
      is non-empty, and "" in every other case, a thrown request included. */
  function LinkFrom(fetch: UriFetch): (link: string)
    ensures link != "" <==> fetch.Ok? && Truthy(fetch.uri)
    ensures link != "" ==> link == fetch.uri.value
  {
    match fetch
    case Ok(uri) => OrElse(uri, "")
    case _ => ""
  }

  /** A saved point: every optional field that is missing or empty becomes
      "", a present value is kept, and the fields the spread copies (id,
      title, description, blogger name, role) are unchanged. */
  function NormalizePoint(p: RoutePoint): (q: RoutePoint)
    ensures q.role == p.role && q.place.id == p.place.id && q.place.title == p.place.title
    ensures q.place.description == p.place.description && q.place.bloggerName == p.place.bloggerName
    ensures q.place.mapx == (if Truthy(p.place.mapx) then p.place.mapx else Some(""))
    ensures q.place.mapy == (if Truthy(p.place.mapy) then p.place.mapy else Some(""))
    ensures q.place.address == (if Truthy(p.place.address) then p.place.address else Some(""))
    ensures q.place.roadAddress == (if Truthy(p.place.roadAddress) then p.place.roadAddress else Some(""))
    ensures q.place.link == (if Truthy(p.place.link) then p.place.link else Some(""))
    ensures q.place.image == (if Truthy(p.place.image) then p.place.image else Some(""))
  {
    var pl := p.place;
    RoutePoint(pl.(
      mapx := Some(OrElse(pl.mapx, "")),
      mapy := Some(OrElse(pl.mapy, "")),
      address := Some(OrElse(pl.address, "")),
      roadAddress := Some(OrElse(pl.roadAddress, "")),
      description := if pl.description != "" then pl.description else "",
      link := Some(OrElse(pl.link, "")),
      image := Some(OrElse(pl.image, ""))), p.role)
  }

  /** Normalising is idempotent: a point saved once is saved unchanged again. */
  lemma NormalizePointIdempotent(p: RoutePoint)
    ensures NormalizePoint(NormalizePoint(p)) == NormalizePoint(p)
  {
  }

  /** The outcome of pressing save. */
  datatype SaveOutcome = LoginRequired | NameRequired | Submit(request: SaveRequest)

  /** `handleSave`: without a user or user id the dialog closes; a blank name
      is refused; otherwise both links are requested (a failed request leaves
      its link empty and does not stop the save) and the route is sent with
      the trimmed name and normalised points. */
  function HandleSave(user: Option<string>, routeName: string, route: seq<RoutePoint>,
                      naverFetch: UriFetch, tmapFetch: UriFetch): (o: SaveOutcome)
    ensures o.LoginRequired? <==> !Truthy(user)
    ensures o.NameRequired? <==> Truthy(user) && IsBlank(routeName)
    ensures o.Submit? ==> o.request.userId == user.value && o.request.userId != ""
    ensures o.Submit? ==> o.request.name == Trim(routeName) && o.request.name != ""
    ensures o.Submit? ==> (|o.request.points| == |route|
      && forall i :: 0 <= i < |route| ==> o.request.points[i] == NormalizePoint(route[i]))
    ensures o.Submit? ==> o.request.naverUri == LinkFrom(naverFetch) && o.request.tmapUri == LinkFrom(tmapFetch)
  {
    TrimEmptyIffBlank(routeName);
    if !Truthy(user) then LoginRequired
    else if Trim(routeName) == "" then NameRequired
    else Submit(SaveRequest(Trim(routeName), Map(route, NormalizePoint), user.value,
                            LinkFrom(naverFetch), LinkFrom(tmapFetch)))
  }

  /** Saving keeps the route's shape: the saved points have the same ids in
      the same order and the same roles, so a well-formed route is saved well
      formed. */
  lemma HandleSaveKeepsRoute(user: Option<string>, routeName: string, route: seq<RoutePoint>,
                             naverFetch: UriFetch, tmapFetch: UriFetch)
    requires HandleSave(user, routeName, route, naverFetch, tmapFetch).Submit?
    ensures var saved := HandleSave(user, routeName, route, naverFetch, tmapFetch).request.points;
      Ids(saved) == Ids(route) && (WellFormed(route) ==> WellFormed(saved))
  {
    var saved := HandleSave(user, routeName, route, naverFetch, tmapFetch).request.points;
    assert |Ids(saved)| == |Ids(route)|;
    forall i | 0 <= i < |route| ensures Ids(saved)[i] == Ids(route)[i] && saved[i].role == route[i].role {
      assert saved[i] == NormalizePoint(route[i]);
    }
  }
}
