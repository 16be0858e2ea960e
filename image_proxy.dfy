/** The image proxy endpoint (app/api/image-proxy/route.ts): it fetches an
    image for the browser and labels it with a content type guessed from the
    address. The upstream request is the parameter `fetch`, None when it
    throws. */
module ImageProxy {
  import opened Common
  import opened Seqs
  import opened Text

  /** An image kind: its content type and how an address names it. */
  datatype Kind = Kind(contentType: string, extension: string, typeParam: string)

  /** The image kinds the address is checked for, in order of precedence. */
  const Kinds: seq<Kind> := [
    Kind("image/png", ".png", "type=png"),
    Kind("image/gif", ".gif", "type=gif"),
    Kind("image/webp", ".webp", "type=webp")
  ]

  const DefaultContentType := "image/jpeg"
  const CacheControl := "public, max-age=86400"

  /** The address names the kind by its extension or by a `type=` parameter. */
  function Indicates(url: string): Kind -> bool
  {
    (k: Kind) => EndsWith(url, k.extension) || Contains(url, k.typeParam)
  }

  /** The content type a URL is served with: that of the first kind in order
      of precedence the address names, and JPEG when it names none. */
  function ContentTypeOf(url: string): (ct: string)
    ensures ct in {"image/png", "image/gif", "image/webp", DefaultContentType}
    ensures ct == DefaultContentType <==> forall j :: 0 <= j < |Kinds| ==> !Indicates(url)(Kinds[j])
    ensures forall i :: 0 <= i < |Kinds| ==>
      (Indicates(url)(Kinds[i]) && (forall j :: 0 <= j < i ==> !Indicates(url)(Kinds[j])) ==> ct == Kinds[i].contentType)
  {
    match FirstIndex(Kinds, Indicates(url))
    case Some(i) => Kinds[i].contentType
    case None => DefaultContentType
  }

  /** The `contentType` chain of `GET`: JPEG unless a later test overwrites it,
      with PNG tested first, then GIF, then WebP. */
  method ChooseContentType(url: string) returns (contentType: string)
    ensures contentType == ContentTypeOf(url)
  {
    contentType := DefaultContentType;
    if EndsWith(url, ".png") || Contains(url, "type=png") {
      contentType := "image/png";
    } else if EndsWith(url, ".gif") || Contains(url, "type=gif") {
      contentType := "image/gif";
    } else if EndsWith(url, ".webp") || Contains(url, "type=webp") {
      contentType := "image/webp";
    }
  }

  datatype ProxyResponse =
    | UrlRequired
    | UpstreamFailed
    | Image(body: seq<bv8>, contentType: string, cacheControl: string)

  /** `GET ?url=…`: 400 without a url (nothing is fetched), 500 when the
      upstream request fails, otherwise the fetched bytes with the guessed
      content type and a one-day public cache lifetime. */
  method Get(url: Option<string>, fetch: string -> Option<seq<bv8>>) returns (r: ProxyResponse)
    ensures !Truthy(url) ==> r == UrlRequired
    ensures Truthy(url) && fetch(url.value).None? ==> r == UpstreamFailed
    ensures Truthy(url) && fetch(url.value).Some? ==>
      r == Image(fetch(url.value).value, ContentTypeOf(url.value), CacheControl)
  {
    if !Truthy(url) {
      return UrlRequired;
    }
    var response := fetch(url.value);
    if response.None? {
      return UpstreamFailed;
    }
    var contentType := ChooseContentType(url.value);
    return Image(response.value, contentType, CacheControl);
  }

  /** PNG takes precedence: an address naming PNG is served as PNG whatever
      other kind it also names. */
  lemma PngWins(url: string)
    requires Contains(url, "type=png") || EndsWith(url, ".png")
    ensures ContentTypeOf(url) == "image/png"
  {
    assert Indicates(url)(Kinds[0]);
  }
}
