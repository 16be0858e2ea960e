/** The search endpoint (app/api/search/route.ts): a case-sensitive filter
    over three fixed places. */
module SearchApi {
  import opened Common
  import opened Seqs
  import opened Text
  import opened Places

  function DummyPlace(id: string, title: string, description: string, image: string,
                      link: string, bloggerName: string): Place
  {
    Place(id, title, description, Some(image), Some(link), Some(bloggerName), None, None, None, None)
  }

  const DummyPlaces: seq<Place> := [
    DummyPlace("place1", "서울 타워", "서울의 대표적인 랜드마크",
               "https://via.placeholder.com/300x200?text=Seoul+Tower",
               "https://example.com/seoul-tower", "서울여행"),
    DummyPlace("place2", "경복궁", "조선시대 정궁",
               "https://via.placeholder.com/300x200?text=Gyeongbokgung",
               "https://example.com/gyeongbokgung", "역사탐방"),
    DummyPlace("place3", "한강공원", "서울 한강변 공원",
               "https://via.placeholder.com/300x200?text=Han+River+Park",
               "https://example.com/hangang", "서울나들이")
  ]

  function MatchesQuery(query: string): Place -> bool
  {
    (p: Place) => Contains(p.title, query) || Contains(p.description, query)
  }

  /** `GET ?query=…`: nothing for a missing or empty query, otherwise every
      dummy place whose title or description contains the query as written,
      in the original order. */
  function Search(query: Option<string>): (r: seq<Place>)
    ensures !Truthy(query) ==> r == []
    ensures Truthy(query) ==> forall p :: p in r <==> p in DummyPlaces && MatchesQuery(query.value)(p)
    ensures SubsequenceOf(r, DummyPlaces)
  {
    if !Truthy(query) then []
    else
      FilterMembers(DummyPlaces, MatchesQuery(query.value));
      FilterSubsequence(DummyPlaces, MatchesQuery(query.value));
      Filter(DummyPlaces, MatchesQuery(query.value))
  }
}
