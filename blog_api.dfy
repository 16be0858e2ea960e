/** The blog-search client (lib/api.ts): tag stripping and the conversion of
    blog search items into places. The metadata request for a post's image is
    a parameter: it maps the post's link to the `image` of the answer, None
    when the request failed or the answer had no image. */
module BlogApi {
  import opened Common
  import opened Seqs
  import opened Text
  import opened Markup
  import opened Places

  /** A blog search hit. */
  datatype BlogItem = BlogItem(id: string, title: string, link: string, description: string,
                               bloggername: string, bloggerlink: string, postdate: string)

  const FallbackImages: seq<string> := [
    "https://picsum.photos/seed/blog1/300/200",
    "https://picsum.photos/seed/blog2/300/200",
    "https://picsum.photos/seed/blog3/300/200",
    "https://picsum.photos/seed/blog4/300/200",
    "https://picsum.photos/seed/blog5/300/200"
  ]

  const UntitledTitle := "제목 없음"
  const UndescribedDescription := "설명 없음"

  /** `removeHTMLTags`: "" for an empty input, otherwise the input with every
      tag removed. */
  function RemoveHtmlTags(s: string): (r: string)
    ensures s == "" ==> r == ""
    ensures TagFree(r)
  {
    StripTagsIsTagFree(s);
    if s == "" then "" else StripTags(s)
  }

  /** The empty-input guard changes nothing: the tag stripping alone already
      maps "" to "". */
  lemma RemoveHtmlTagsIsStripTags(s: string)
    ensures RemoveHtmlTags(s) == StripTags(s)
  {
  }

  /** The place a blog hit at position `index` becomes, with `metadataImage`
      the image its metadata request returned. */
  function BlogPlace(item: BlogItem, index: nat, metadataImage: Option<string>): (p: Place)
    ensures p.id == if item.id != "" then item.id else "blog-" + NatToString(index + 1)
    ensures p.title != "" && TagFree(p.title)
    ensures RemoveHtmlTags(item.title) != "" ==> p.title == RemoveHtmlTags(item.title)
    ensures RemoveHtmlTags(item.title) == "" ==> p.title == UntitledTitle
    ensures p.description != "" && TagFree(p.description)
    ensures RemoveHtmlTags(item.description) != "" ==> p.description == RemoveHtmlTags(item.description)
    ensures RemoveHtmlTags(item.description) == "" ==> p.description == UndescribedDescription
    ensures p.link == Some(item.link) && p.bloggerName == Some(item.bloggername)
    ensures p.image == if Truthy(metadataImage) then metadataImage else Some(FallbackImages[index % 5])
  {
    var title := RemoveHtmlTags(item.title);
    var description := RemoveHtmlTags(item.description);
    assert TagFree(UntitledTitle) && TagFree(UndescribedDescription);
    Place(if item.id != "" then item.id else "blog-" + NatToString(index + 1),
          if title != "" then title else UntitledTitle,
          if description != "" then description else UndescribedDescription,
          Some(if Truthy(metadataImage) then metadataImage.value else FallbackImages[index % |FallbackImages|]),
          Some(item.link), Some(item.bloggername), None, None, None, None)
  }

  /** `convertBlogItemToPlace`: the place is built with the fallback image and
      its image is then overwritten when the metadata supplied one. */
  method ConvertBlogItemToPlace(item: BlogItem, index: nat, metadata: string -> Option<string>)
    returns (place: Place)
    ensures place == BlogPlace(item, index, metadata(item.link))
  {
    var title := RemoveHtmlTags(item.title);
    var description := RemoveHtmlTags(item.description);
    place := Place(if item.id != "" then item.id else "blog-" + NatToString(index + 1),
                   if title != "" then title else UntitledTitle,
                   if description != "" then description else UndescribedDescription,
                   Some(FallbackImages[index % |FallbackImages|]),
                   Some(item.link), Some(item.bloggername), None, None, None, None);
    var fetched := metadata(item.link);
    if Truthy(fetched) {
      place := place.(image := fetched);
    }
  }

  /** `convertBlogItemsToPlaces`: one place per hit, in order, each converted
      with its own position. */
  function ConvertBlogItemsToPlaces(items: seq<BlogItem>, metadata: string -> Option<string>): (places: seq<Place>)
    ensures |places| == |items|
    ensures forall i :: 0 <= i < |items| ==> places[i] == BlogPlace(items[i], i, metadata(items[i].link))
  {
    seq(|items|, i requires 0 <= i < |items| => BlogPlace(items[i], i, metadata(items[i].link)))
  }

  /** Hits without an id of their own get distinct ids: `blog-1`, `blog-2`, …
      by position, so such a result list never repeats an id. */
  lemma FallbackIdsDistinct(items: seq<BlogItem>, metadata: string -> Option<string>)
    requires forall i :: 0 <= i < |items| ==> items[i].id == ""
    ensures NoDup(PlaceIds(ConvertBlogItemsToPlaces(items, metadata)))
  {
    var ids := PlaceIds(ConvertBlogItemsToPlaces(items, metadata));
    forall i, j | 0 <= i < j < |ids| ensures ids[i] != ids[j] {
      var a := NatToString(i + 1);
      var b := NatToString(j + 1);
      if ids[i] == ids[j] {
        assert ("blog-" + a)[5..] == a;
        assert ("blog-" + b)[5..] == b;
        NatToStringInjective(i + 1, j + 1);
      }
    }
  }
}
