/** The entities of the application: a place of interest and a route point,
    which is a place tagged with its role in the route (types/route.ts). */
module Places {
  import opened Common
  import opened Seqs

  /** A place. The optional fields are absent when a source did not supply
      them: mock and blog places carry no coordinates, a typed-in custom
      place carries neither coordinates nor addresses. `mapx`/`mapy` are the
      longitude/latitude as decimal text scaled by 10^7. */
  datatype Place = Place(
    id: string,
    title: string,
    description: string,
    image: Option<string>,
    link: Option<string>,
    bloggerName: Option<string>,
    mapx: Option<string>,
    mapy: Option<string>,
    address: Option<string>,
    roadAddress: Option<string>)

  /** The `type` of a route point: 'start' | 'waypoint' | 'end'. */
  datatype Role = Start | Waypoint | End

  datatype RoutePoint = RoutePoint(place: Place, role: Role)

  /** The JSON body of a request that posts a place: `{ place }`, whose
      `place` may be absent. */
  datatype PlaceRequest = PlaceRequest(place: Option<Place>)

  /** A place with only the three required fields. */
  function BarePlace(id: string, title: string, description: string): Place
  {
    Place(id, title, description, None, None, None, None, None, None, None)
  }

  function PlaceId(p: Place): string
  {
    p.id
  }

  /** The ids of a list of places, in order. */
  function PlaceIds(places: seq<Place>): seq<string>
  {
    Map(places, PlaceId)
  }

  /** The test `p => p.id !== id`. */
  function PlaceNotId(id: string): Place -> bool
  {
    (p: Place) => p.id != id
  }

  /** The test `p => p.id === id`. */
  function HasId(id: string): Place -> bool
  {
    (p: Place) => p.id == id
  }
}
